/**
 What a blank does to the fields of a text.  Behind a slash it is skipped, anywhere else it belongs to a field.
 */
module FieldText {
  import opened Common
  import opened Tokenize
  import opened LineCodec

  /** Blanks that come next are skipped: nothing but blanks so far, or nothing but blanks since a slash. */
  predicate OpenAt(a: string) {
    if |a| == 0 then true
    else if a[|a| - 1] == ' ' then OpenAt(a[..|a| - 1])
    else a[|a| - 1] == '/'
  }

  /** The characters of the fields, and one for the end of each. */
  function Size(ts: seq<string>): nat {
    if |ts| == 0 then 0 else |ts[0]| + 1 + Size(ts[1..])
  }

  lemma {:induction false} SizeConcat(ts: seq<string>, us: seq<string>)
    ensures Size(ts + us) == Size(ts) + Size(us)
  {
    if |ts| == 0 {
      assert ts + us == us;
    } else {
      assert (ts + us)[1..] == ts[1..] + us;
      SizeConcat(ts[1..], us);
    }
  }

  lemma {:induction false} JoinSize(ts: seq<string>)
    requires |ts| >= 1
    ensures |Join(ts)| + 1 == Size(ts)
  {
    if |ts| > 1 { JoinSize(ts[1..]); }
  }

  lemma SizeMiddle(p: seq<string>, t: string, rest: seq<string>)
    ensures Size(p + ([t] + rest)) == Size(p) + |t| + 1 + Size(rest)
  {
    SizeConcat(p, [t] + rest);
    assert ([t] + rest)[1..] == rest;
  }

  /** Text without slashes in front of another text goes into its first field. */
  lemma Glue(t: string, w: string, s: string)
    requires '/' !in t && s == t + w
    ensures FieldsOf(s) == [t + FieldsOf(w)[0]] + FieldsOf(w)[1..]
  {
    var f := FieldEnd(Fields, w, 0, |w|);
    FieldEndSkips(Fields, w, 0, |w|);
    FieldEndIs(Fields, s, 0, |s|, |t| + f);
    if f == |w| {
      assert s[0..] == t + w[0..];
    } else {
      assert s[0..|t| + f] == t + w[0..f];
      TokensAfterShift(Fields, s, |t|, w, f + 1, |w|);
      assert |t| + (f + 1) == |t| + f + 1;
    }
  }

  lemma BlankGlue(y: string, s: string)
    requires s == " " + y
    ensures FieldsOf(s) == [" " + FieldsOf(y)[0]] + FieldsOf(y)[1..]
  {
    Glue(" ", y, s);
  }

  // ---- blanks that are skipped

  /** Behind a slash one blank more makes no difference. */
  lemma {:induction false} OpenBlank(a: string, y: string)
    requires OpenAt(a)
    ensures After(a + (" " + y)) == After(a + y)
    decreases |a|
  {
    if |a| == 0 {
      BlankInFront(Fields, y, " " + y);
      assert a + (" " + y) == " " + y && a + y == y;
    } else {
      var a1, c := a[..|a| - 1], a[|a| - 1];
      assert a == a1 + [c];
      if c == ' ' {
        OpenBlank(a1, " " + y);
        assert a + (" " + y) == a1 + (" " + (" " + y)) && a + y == a1 + (" " + y);
      } else {
        BlankInFront(Fields, y, " " + y);
        AfterSlash(a1, " " + y, a + (" " + y));
        AfterSlash(a1, y, a + y);
      }
    }
  }

  // ---- blanks that stay

  lemma {:induction false} LastSlash(a: string) returns (p: string, t: string)
    ensures '/' !in t
    ensures |t| <= |a| && if |t| == |a| then a == t else a == p + "/" + t
    decreases |a|
  {
    if '/' !in a {
      p, t := "", a;
    } else {
      var a1, c := a[..|a| - 1], a[|a| - 1];
      assert a == a1 + [c];
      if c == '/' {
        p, t := a1, "";
      } else {
        p, t := LastSlash(a1);
        t := t + [c];
      }
    }
  }

  lemma {:induction false} OpenBlanks(a: string, t: string)
    requires '/' !in t && (a == t || exists p :: a == p + "/" + t)
    ensures OpenAt(a) <==> AllBlank(t)
    decreases |t|
  {
    BlankEndSkips(t, 0, |t|);
    if |t| > 0 {
      var a1, t1, c := a[..|a| - 1], t[..|t| - 1], t[|t| - 1];
      assert t == t1 + [c];
      if c == ' ' {
        if p :| a == p + "/" + t { assert a1 == p + "/" + t1; }
        OpenBlanks(a1, t1);
        BlankEndSkips(t1, 0, |t1|);
        if AllBlank(t1) { BlankEndIs(t, 0, |t|, |t|); }
        if AllBlank(t) { BlankEndIs(t1, 0, |t1|, |t1|); }
      } else {
        assert a[|a| - 1] == c;
      }
    }
  }

  /** The text ends in the middle of a field: `p` are the fields before it and `t` is what there is of it. */
  ghost predicate Ends(a: string, p: seq<string>, t: string) {
    && a != "" && t != "" && t[|t| - 1] == a[|a| - 1]
    && forall w :: After(a + w) == p + ([t + FieldsOf(w)[0]] + FieldsOf(w)[1..])
  }

  lemma AfterGlue(t: string, w: string, s: string)
    requires '/' !in t && !AllBlank(t) && s == t + w
    ensures After(s) == [Stripped(t) + FieldsOf(w)[0]] + FieldsOf(w)[1..]
  {
    var b := BlankEnd(t, 0, |t|);
    BlankEndSkips(t, 0, |t|);
    BlankEndIs(s, 0, |s|, b);
    TokensAppended(Fields, s[..b], s[b..], s);
    assert s[b..] == Stripped(t) + w;
    Glue(Stripped(t), w, s[b..]);
  }

  lemma ClosedEnds(a: string) returns (p: seq<string>, t: string)
    requires a != "" && !OpenAt(a)
    ensures Ends(a, p, t)
  {
    var front, u := LastSlash(a);
    OpenBlanks(a, u);
    t := Stripped(u);
    assert u[|u| - 1] == a[|a| - 1];
    if |u| == |a| {
      p := [];
      forall w ensures After(a + w) == p + ([t + FieldsOf(w)[0]] + FieldsOf(w)[1..]) {
        AfterGlue(u, w, a + w);
      }
    } else {
      p := After(front + "/");
      forall w ensures After(a + w) == p + ([t + FieldsOf(w)[0]] + FieldsOf(w)[1..]) {
        AfterSlash(front, u + w, a + w);
        AfterGlue(u, w, u + w);
      }
    }
  }

  /** In the middle of a field one blank more is one character more. */
  lemma ClosedBlank(a: string, y: string)
    requires !OpenAt(a)
    ensures Size(After(a + (" " + y))) == Size(After(a + y)) + 1
    ensures |After(a + (" " + y))| == |After(a + y)|
  {
    var p, t := ClosedEnds(a);
    BlankGlue(y, " " + y);
    var h, rest := FieldsOf(y)[0], FieldsOf(y)[1..];
    assert After(a + (" " + y)) == p + ([t + (" " + h)] + rest);
    SizeMiddle(p, t + (" " + h), rest);
    SizeMiddle(p, t + h, rest);
  }

  /** A text that ends in the middle of a field ends as its last field does. */
  lemma ClosedEnd(a: string)
    requires !OpenAt(a)
    ensures var ts := After(a); ts != [] && ts[|ts| - 1] != "" && ts[|ts| - 1][|ts[|ts| - 1]| - 1] == a[|a| - 1]
  {
    var p, t := ClosedEnds(a);
    assert a + "" == a;
    assert After(a + "") == p + ([t + FieldsOf("")[0]] + FieldsOf("")[1..]);
    assert FieldsOf("") == [""] && t + "" == t;
    assert [t] + [""][1..] == [t];
    assert After(a) == p + [t];
  }

  /** A slash behind a skipped blank closes an empty field. */
  lemma {:induction false} OpenSlash(a: string) returns (p: seq<string>)
    requires OpenAt(a)
    ensures After(a + "/") == p + [""]
    decreases |a|
  {
    assert After("/") == [""];
    if |a| == 0 {
      p := [];
      assert a + "/" == "/";
    } else {
      var a1, c := a[..|a| - 1], a[|a| - 1];
      assert a == a1 + [c];
      if c == ' ' {
        p := OpenSlash(a1);
        OpenBlank(a1, "/");
        assert a + "/" == a1 + (" " + "/");
      } else {
        p := After(a1 + "/");
        AfterSlash(a1, "/", a + "/");
      }
    }
  }

  /** Anywhere else it closes the field that is open. */
  lemma ClosedSlash(a: string)
    requires !OpenAt(a)
    ensures var ts := After(a + "/"); ts != [] && ts[|ts| - 1] != ""
  {
    var p, t := ClosedEnds(a);
    assert FieldsOf("/") == [""];
    assert t + "" == t && [t] + [""][1..] == [t];
    assert After(a + "/") == p + [t];
  }

  lemma NoLeadingBlank(s: string)
    requires s != "" && s[0] != ' '
    ensures After(s) == FieldsOf(s) && !AllBlank(s)
  {
    BlankEndIs(s, 0, |s|, 0);
  }

  /** The length of the text a reader gets. */
  lemma ShownSize(user: string, message: string)
    requires Storable(user, message)
    ensures |Shown(Stored(user, message))| + 1 == Size(Behind(user, message))
  {
    var ts := Behind(user, message);
    JoinSize(ts);
    assert Join(ts) == ts[0] + "/" + Join(ts[1..]);
  }

  lemma BehindSize(user: string, message: string)
    ensures Size(Behind(user, message)) == Size(After(user + "/")) + Size(After(message))
  {
    BehindParts(user, message);
    SizeConcat(After(user + "/"), After(message));
  }

  /** The end of the text a reader gets. */
  lemma ShownEnd(user: string, message: string)
    requires var ts := After(message); ts != [] && ts[|ts| - 1] != ""
    ensures Storable(user, message)
    ensures var shown, ts := Shown(Stored(user, message)), After(message);
            shown[|shown| - 1] == ts[|ts| - 1][|ts[|ts| - 1]| - 1]
  {
    BehindParts(user, message);
    var ts := Behind(user, message);
    JoinEnd(ts);
    assert Join(ts) == ts[0] + "/" + Join(ts[1..]);
    assert ts[|ts| - 1] == After(message)[|After(message)| - 1];
  }

  lemma {:induction false} OpenIfBlank(g: string, rest: string, y: string)
    requires y == g + "/" + rest && forall j :: 0 <= j < |rest| ==> rest[j] == ' '
    ensures OpenAt(y)
    decreases |rest|
  {
    if |rest| > 0 {
      assert y[..|y| - 1] == g + "/" + rest[..|rest| - 1];
      OpenIfBlank(g, rest[..|rest| - 1], y[..|y| - 1]);
    }
  }

  /** Only the text from the last character that is not a blank on matters. */
  lemma {:induction false} OpenSuffix(a: string, k: nat)
    requires k < |a| && a[k] != ' '
    ensures OpenAt(a) == OpenAt(a[k..])
    decreases |a|
  {
    var s := a[k..];
    assert s[|s| - 1] == a[|a| - 1];
    if a[|a| - 1] == ' ' {
      OpenSuffix(a[..|a| - 1], k);
      assert a[..|a| - 1][k..] == s[..|s| - 1];
    }
  }

  // ---- a window that reaches behind the end of a text

  /** The strings that are seen of these tokens. */
  predicate Seen(us: seq<string>, ts: seq<string>) {
    |us| == |ts| && forall q :: 0 <= q < |ts| ==> CString(us[q]) == ts[q]
  }

  lemma SeenMore(u: string, us: seq<string>, t: string, ts: seq<string>)
    requires CString(u) == t && Seen(us, ts)
    ensures Seen([u] + us, [t] + ts)
  {
  }

  /** The text, its terminator and what lies behind it. */
  predicate Buffer(u: string, r: string) {
    |r| < |u| && u[..|r|] == r && u[|r|] == ZERO && ZERO !in r
  }

  lemma BufferEnd(u: string, r: string, i: nat)
    requires Buffer(u, r) && i <= |r|
    ensures CString(u[i..]) == r[i..]
  {
    assert u[i..][..|r| - i] == r[i..];
    assert u[i..][|r| - i] == ZERO;
    CStringIs(u[i..], |r| - i);
  }

  lemma BufferField(u: string, r: string, i: nat, e: nat)
    requires Buffer(u, r) && i <= e <= |r|
    ensures u[i..e] == r[i..e] && CString(u[i..e]) == r[i..e]
  {
    assert forall j :: 0 <= j < |r| ==> u[j] == u[..|r|][j];
    assert u[i..e] == r[i..e];
    assert ZERO !in r[i..e];
    CStringIs(u[i..e], e - i);
  }

  lemma BufferBlanks(u: string, r: string, i: nat, n: nat)
    requires Buffer(u, r) && i <= |r| < n <= |u|
    ensures BlankEnd(u, i, n) == BlankEnd(r, i, |r|)
  {
    BlankEndSkips(r, i, |r|);
    assert forall j :: 0 <= j < |r| ==> u[j] == u[..|r|][j];
    BlankEndIs(u, i, n, BlankEnd(r, i, |r|));
  }

  /** A window inside the text sees the tokens of the text. */
  lemma {:induction false} LongBuffer(u: string, r: string, i: nat, n: nat)
    requires Buffer(u, r) && i <= n <= |r|
    ensures Seen(Tokens(Fields, u, i, n), Tokens(Fields, r, i, n))
    decreases n - i
  {
    var e := FieldEnd(Fields, r, i, n);
    assert forall j :: 0 <= j < |r| ==> u[j] == u[..|r|][j];
    FieldEndSkips(Fields, r, i, n);
    FieldEndIs(Fields, u, i, n, e);
    if e == n {
      BufferEnd(u, r, i);
    } else {
      var b := BlankEnd(r, e + 1, n);
      BlankEndSkips(r, e + 1, n);
      BlankEndIs(u, e + 1, n, b);
      BufferField(u, r, i, e);
      if b < n {
        LongBuffer(u, r, b, n);
        SeenMore(u[i..e], Tokens(Fields, u, b, n), r[i..e], Tokens(Fields, r, b, n));
      }
    }
  }

  /** What a window that reaches behind the text adds. */
  function Extra(r: string): seq<string> {
    if OpenAt(r) && !AllBlank(r) then [""] else []
  }

  /** The next separator in the window is that of the text, or there is none. */
  lemma BufferSlash(u: string, r: string, i: nat, n: nat)
    requires Buffer(u, r) && i <= |r| < n <= |u| && '/' !in u[|r|..n]
    ensures var e := FieldEnd(Fields, r, i, |r|); FieldEnd(Fields, u, i, n) == if e < |r| then e else n
  {
    var e := FieldEnd(Fields, r, i, |r|);
    FieldEndSkips(Fields, r, i, |r|);
    assert forall j :: 0 <= j < |r| ==> u[j] == u[..|r|][j];
    assert forall j :: |r| <= j < n ==> u[j] == u[|r|..n][j - |r|];
    FieldEndIs(Fields, u, i, n, if e < |r| then e else n);
  }

  lemma LastInBuffer(u: string, r: string, i: nat, n: nat)
    requires Buffer(u, r) && i <= |r| < n <= |u| && '/' !in u[|r|..n] && FieldEnd(Fields, r, i, |r|) == |r|
    ensures Tokens(Fields, u, i, n) == [u[i..]] && Tokens(Fields, r, i, |r|) == [r[i..]]
    ensures CString(u[i..]) == r[i..] && Extra(r[i..]) == []
  {
    BufferSlash(u, r, i, n);
    BufferEnd(u, r, i);
    FieldEndSkips(Fields, r, i, |r|);
    assert '/' !in r[i..];
    OpenBlanks(r[i..], r[i..]);
  }

  lemma NextInBuffer(u: string, r: string, i: nat, n: nat) returns (e: nat, b: nat)
    requires Buffer(u, r) && i <= |r| < n <= |u| && '/' !in u[|r|..n] && FieldEnd(Fields, r, i, |r|) < |r|
    ensures e == FieldEnd(Fields, r, i, |r|) && b == BlankEnd(r, e + 1, |r|)
    ensures CString(u[i..e]) == r[i..e] && Tokens(Fields, u, i, n) == [u[i..e]] + Tokens(Fields, u, b, n)
    ensures Tokens(Fields, r, i, |r|) == [r[i..e]] + TokensAfter(Fields, r, e + 1, |r|)
  {
    BufferSlash(u, r, i, n);
    e, b := FieldEnd(Fields, r, i, |r|), BlankEnd(r, FieldEnd(Fields, r, i, |r|) + 1, |r|);
    BufferBlanks(u, r, e + 1, n);
    BufferField(u, r, i, e);
  }

  /** A window that reaches behind the text sees one more, empty token if only blanks follow the last slash. */
  lemma {:induction false} ShortBuffer(u: string, r: string, i: nat, n: nat)
    requires Buffer(u, r) && i <= |r| < n <= |u| && '/' !in u[|r|..n]
    ensures Seen(Tokens(Fields, u, i, n), Tokens(Fields, r, i, |r|) + Extra(r[i..]))
    decreases |r| - i
  {
    if FieldEnd(Fields, r, i, |r|) == |r| {
      LastInBuffer(u, r, i, n);
    } else {
      var e, b := NextInBuffer(u, r, i, n);
      if b < |r| {
        ShortBuffer(u, r, b, n);
        OpenLater(r, i, b);
        SeenMore(u[i..e], Tokens(Fields, u, b, n), r[i..e], Tokens(Fields, r, b, |r|) + Extra(r[b..]));
        Associate([r[i..e]], Tokens(Fields, r, b, |r|), Extra(r[b..]));
      } else {
        OpenEnd(r, i, e);
        LastInBuffer(u, r, |r|, n);
        SeenMore(u[i..e], Tokens(Fields, u, |r|, n), r[i..e], [""]);
      }
    }
  }

  lemma OpenLater(r: string, i: nat, b: nat)
    requires i <= b < |r| && r[b] != ' '
    ensures Extra(r[i..]) == Extra(r[b..])
  {
    assert r[i..][b - i..] == r[b..];
    OpenSuffix(r[i..], b - i);
    BlankEndSkips(r[i..], 0, |r[i..]|);
    BlankEndSkips(r[b..], 0, |r[b..]|);
    assert r[i..][b - i] == r[b..][0] == r[b];
  }

  lemma OpenEnd(r: string, i: nat, e: nat)
    requires i <= e < |r| && r[e] == '/' && BlankEnd(r, e + 1, |r|) == |r|
    ensures Extra(r[i..]) == [""]
  {
    BlankEndSkips(r, e + 1, |r|);
    var a := r[i..];
    assert a == r[i..e] + "/" + r[e + 1..];
    OpenIfBlank(r[i..e], r[e + 1..], a);
    BlankEndSkips(a, 0, |a|);
    assert a[e - i] == '/';
  }
}
