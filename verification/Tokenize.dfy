/**
 The two in-place string tokenizers.  Both walk a zero-terminated buffer once, overwrite every separator
 they meet by the terminator and record where the next token starts.  They differ only in the separators.
 */
module Tokenize {
  import opened Common

  /** `Words` is the tokenizer of requests, `Fields` the tokenizer of bulletin lines. */
  datatype Separators = Words | Fields

  const ZERO: char := '\0'

  predicate IsSep(k: Separators, c: char) {
    match k
    case Words => c == '=' || c == ' '
    case Fields => c == '/'
  }

  /** The first separator in `s[i..n]`, or `n`. */
  function FieldEnd(k: Separators, s: string, i: nat, n: nat): (e: nat)
    requires i <= n <= |s|
    ensures i <= e <= n
    ensures e < n ==> IsSep(k, s[e])
    decreases n - i
  {
    if i == n || IsSep(k, s[i]) then i else FieldEnd(k, s, i + 1, n)
  }

  /** The first character in `s[i..n]` that is not a blank, or `n`. */
  function BlankEnd(s: string, i: nat, n: nat): (b: nat)
    requires i <= n <= |s|
    ensures i <= b <= n
    ensures b < n ==> s[b] != ' '
    decreases n - i
  {
    if i == n || s[i] != ' ' then i else BlankEnd(s, i + 1, n)
  }

  /** The tokens of `s[i..]` when separators are only searched for before position `n`: the text up to the
      first separator, then the tokens of what follows the separator and the blanks behind it, if anything. */
  function Tokens(k: Separators, s: string, i: nat, n: nat): (ts: seq<string>)
    requires i <= n <= |s|
    ensures |ts| >= 1
    decreases n - i, 0
  {
    var e := FieldEnd(k, s, i, n);
    if e == n then [s[i..]] else [s[i..e]] + TokensAfter(k, s, e + 1, n)
  }

  function TokensAfter(k: Separators, s: string, i: nat, n: nat): (ts: seq<string>)
    requires i <= n <= |s|
    decreases n - i, 1
  {
    var b := BlankEnd(s, i, n);
    if b == n then [] else Tokens(k, s, b, n)
  }

  function AllTokens(k: Separators, s: string): (ts: seq<string>) {
    Tokens(k, s, 0, |s|)
  }

  /** The first zero in `s[i..]`, or the length of `s`. */
  function ZeroAt(s: string, i: nat): (z: nat)
    requires i <= |s|
    ensures i <= z <= |s| && (z < |s| ==> s[z] == ZERO) && ZERO !in s[i..z]
    decreases |s| - i
  {
    if i == |s| || s[i] == ZERO then i else ZeroAt(s, i + 1)
  }

  /** What a program sees of a text: the part in front of the first zero. */
  function CString(s: string): (t: string)
    ensures ZERO !in t && t <= s
  {
    s[..ZeroAt(s, 0)]
  }

  lemma CStringIs(s: string, z: nat)
    requires z <= |s| && ZERO !in s[..z] && (z < |s| ==> s[z] == ZERO)
    ensures CString(s) == s[..z]
  {
    var y := ZeroAt(s, 0);
    assert forall j :: 0 <= j < z ==> s[j] == s[..z][j];
    assert forall j :: 0 <= j < y ==> s[j] == s[0..y][j];
  }

  /** `t` is the zero-terminated string that starts at offset `p` of the buffer. */
  ghost predicate StringAt(buf: seq<char>, p: nat, t: string) {
    && p + |t| < |buf|
    && buf[p..p + |t|] == t
    && buf[p + |t|] == ZERO
    && ZERO !in t
  }

  lemma {:induction false} FieldEndIs(k: Separators, s: string, i: nat, n: nat, e: nat)
    requires i <= e <= n <= |s|
    requires forall j :: i <= j < e ==> !IsSep(k, s[j])
    requires e < n ==> IsSep(k, s[e])
    ensures FieldEnd(k, s, i, n) == e
    decreases e - i
  {
    if i < e { FieldEndIs(k, s, i + 1, n, e); }
  }

  lemma {:induction false} BlankEndIs(s: string, i: nat, n: nat, b: nat)
    requires i <= b <= n <= |s|
    requires forall j :: i <= j < b ==> s[j] == ' '
    requires b < n ==> s[b] != ' '
    ensures BlankEnd(s, i, n) == b
    decreases b - i
  {
    if i < b { BlankEndIs(s, i + 1, n, b); }
  }

  /** What is skipped on the way to the next separator, and to the next character that is not a blank. */
  lemma {:induction false} FieldEndSkips(k: Separators, s: string, i: nat, n: nat)
    requires i <= n <= |s|
    ensures forall j :: i <= j < FieldEnd(k, s, i, n) ==> !IsSep(k, s[j])
    decreases n - i
  {
    if i < n && !IsSep(k, s[i]) { FieldEndSkips(k, s, i + 1, n); }
  }

  lemma {:induction false} BlankEndSkips(s: string, i: nat, n: nat)
    requires i <= n <= |s|
    ensures forall j :: i <= j < BlankEnd(s, i, n) ==> s[j] == ' '
    decreases n - i
  {
    if i < n && s[i] == ' ' { BlankEndSkips(s, i + 1, n); }
  }

  /** Where the field at `i` ends at `e` and the blanks behind the separator end at `b`. */
  lemma TokensCut(k: Separators, s: string, i: nat, n: nat, e: nat, b: nat)
    requires i <= e < b <= n <= |s|
    requires forall j :: i <= j < e ==> !IsSep(k, s[j])
    requires IsSep(k, s[e])
    requires forall j :: e < j < b ==> s[j] == ' '
    requires b < n ==> s[b] != ' '
    ensures Tokens(k, s, i, n) == [s[i..e]] + if b == n then [] else Tokens(k, s, b, n)
  {
    FieldEndIs(k, s, i, n, e);
    BlankEndIs(s, e + 1, n, b);
  }

  /** The tokens of `ts` lie in the buffer where `toks` says, each ending before `limit`. */
  ghost predicate Recorded(buf: seq<char>, toks: seq<nat>, ts: seq<string>, limit: nat) {
    && |ts| <= |toks|
    && forall q :: 0 <= q < |ts| ==> StringAt(buf, toks[q], CString(ts[q])) && toks[q] + |ts[q]| < limit
  }

  /** The state of the scan of `s` at `i`: the tokens `done` are recorded, the field that starts at `st` is open. */
  ghost predicate Scanning(k: Separators, s: string, n: nat, buf: seq<char>, toks: seq<nat>,
                           done: seq<string>, st: nat, i: nat) {
    && st <= i <= n <= |s| < |buf| && buf[|s|] == ZERO
    && (forall j :: st <= j < |s| ==> buf[j] == s[j])
    && (forall j :: st <= j < i ==> !IsSep(k, s[j]))
    && |done| <= st && |done| < |toks| && toks[|done|] == st
    && Tokens(k, s, 0, n) == done + Tokens(k, s, st, n)
    && Recorded(buf, toks, done, st)
  }

  /** Recorded tokens survive changes of the buffer at `limit` and later, and of the unused token slots. */
  lemma RecordedKept(buf: seq<char>, buf': seq<char>, toks: seq<nat>, toks': seq<nat>, ts: seq<string>, limit: nat)
    requires Recorded(buf, toks, ts, limit)
    requires |buf| == |buf'| && |toks| == |toks'|
    requires forall j :: 0 <= j < limit && j < |buf| ==> buf[j] == buf'[j]
    requires forall q :: 0 <= q < |ts| ==> toks'[q] == toks[q]
    ensures Recorded(buf', toks', ts, limit)
  {
    forall q | 0 <= q < |ts| ensures StringAt(buf', toks'[q], CString(ts[q])) {
      var t := CString(ts[q]);
      assert |t| <= |ts[q]|;
      assert buf'[toks[q]..toks[q] + |t|] == buf[toks[q]..toks[q] + |t|];
    }
  }

  /** Terminating the open field at `e` records it. */
  lemma RecordedMore(buf: seq<char>, toks: seq<nat>, ts: seq<string>, s: string, p: nat, e: nat)
    requires Recorded(buf, toks, ts, p)
    requires |ts| < |toks| && toks[|ts|] == p
    requires p <= e <= |s| < |buf|
    requires forall j :: p <= j < e ==> buf[j] == s[j]
    requires buf[e] == ZERO
    ensures Recorded(buf, toks, ts + [s[p..e]], e + 1)
  {
    var t := CString(s[p..e]);
    assert |t| < e - p ==> s[p..e][|t|] == ZERO;
    assert buf[p..p + |t|] == t;
  }

  lemma CutField(k: Separators, s: string, n: nat, buf: seq<char>, toks: seq<nat>, done: seq<string>, st: nat, i: nat)
    returns (b: nat, done': seq<string>)
    requires Scanning(k, s, n, buf, toks, done, st, i) && i < n && IsSep(k, s[i])
    ensures b == BlankEnd(s, i + 1, n) && |done'| == |done| + 1 <= b
    ensures Recorded(buf[i := ZERO], toks, done', i + 1)
    ensures b == n ==> Tokens(k, s, 0, n) == done'
    ensures b < n ==> Tokens(k, s, 0, n) == done' + Tokens(k, s, b, n)
  {
    b, done' := BlankEnd(s, i + 1, n), done + [s[st..i]];
    RecordedKept(buf, buf[i := ZERO], toks, toks, done, st);
    RecordedMore(buf[i := ZERO], toks, done, s, st, i);
    FieldEndIs(k, s, st, n, i);
    var rest := TokensAfter(k, s, i + 1, n);
    Associate(done, [s[st..i]], rest);
  }

  /** A separator with another field behind it: the scan goes on in that field. */
  lemma CutMiddle(k: Separators, s: string, n: nat, buf: seq<char>, toks: seq<nat>, done: seq<string>, st: nat, i: nat,
                  b: nat, toks': seq<nat>)
    returns (done': seq<string>)
    requires Scanning(k, s, n, buf, toks, done, st, i) && i < n && IsSep(k, s[i])
    requires b == BlankEnd(s, i + 1, n) < n && |done| + 1 < |toks| && toks' == toks[|done| + 1 := b]
    ensures |done'| == |done| + 1 && Scanning(k, s, n, buf[i := ZERO], toks', done', b, b)
  {
    var c;
    c, done' := CutField(k, s, n, buf, toks, done, st, i);
    RecordedKept(buf[i := ZERO], buf[i := ZERO], toks, toks', done', i + 1);
  }

  /** A character of the open field. */
  lemma ScanOn(k: Separators, s: string, n: nat, buf: seq<char>, toks: seq<nat>, done: seq<string>, st: nat, i: nat)
    requires Scanning(k, s, n, buf, toks, done, st, i) && i < n && !IsSep(k, buf[i])
    ensures Scanning(k, s, n, buf, toks, done, st, i + 1)
  {
  }

  lemma FinishField(k: Separators, s: string, n: nat, buf: seq<char>, toks: seq<nat>, done: seq<string>, st: nat)
    requires Scanning(k, s, n, buf, toks, done, st, n)
    ensures Recorded(buf, toks, Tokens(k, s, 0, n), |s| + 1) && |Tokens(k, s, 0, n)| == |done| + 1
  {
    FieldEndIs(k, s, st, n, n);
    RecordedMore(buf, toks, done, s, st, |s|);
    assert s[st..] == s[st..|s|];
  }

  /** Terminates the field that ends at `i` and skips the blanks behind the separator. */
  method CutAt(str: array<char>, i: nat, n: nat, ghost s: string) returns (b: nat)
    requires i < n <= |s| < str.Length
    requires forall j :: i < j < n ==> str[j] == s[j]
    modifies str
    ensures str[..] == old(str[..])[i := ZERO]
    ensures b == BlankEnd(s, i + 1, n)
  {
    str[i] := ZERO;
    b := i + 1;
    while b < n && str[b] == ' '
      invariant i < b <= n
      invariant forall j :: i < j < b ==> s[j] == ' '
    {
      b := b + 1;
    }
    BlankEndIs(s, i + 1, n, b);
  }

  /** The branch of the tokenizer at a separator: terminate the open field and start the next one, if any. */
  method NextField(k: Separators, str: array<char>, tokens: array<nat>, n: nat, i: nat, tokSize: nat,
                   ghost s: string, ghost done: seq<string>, ghost st: nat)
    returns (i': nat, tokSize': nat, ghost done': seq<string>)
    requires Scanning(k, s, n, str[..], tokens[..], done, st, i) && i < n && IsSep(k, s[i])
    requires tokSize == |done| + 1 && n < tokens.Length
    modifies str, tokens
    ensures i < i' <= n && tokSize' == |done'| + if i' < n then 1 else 0
    ensures i' < n ==> Scanning(k, s, n, str[..], tokens[..], done', i', i')
    ensures i' == n ==> done' == Tokens(k, s, 0, n) && Recorded(str[..], tokens[..], done', |s| + 1)
  {
    ghost var buf, toks := str[..], tokens[..];
    i' := CutAt(str, i, n, s);
    tokSize' := tokSize;
    if i' < n {
      tokens[tokSize] := i';
      tokSize' := tokSize + 1;
      assert tokens[..] == toks[tokSize := i'];
      done' := CutMiddle(k, s, n, buf, toks, done, st, i, i', tokens[..]);
    } else {
      ghost var b;
      b, done' := CutField(k, s, n, buf, toks, done, st, i);
    }
  }

  /** The tokenizer.  Only the first `n` characters of the buffer are searched; `len` is the place of a terminator
      behind them.  Terminators in front of it stay and end the strings they are in. */
  method TokenizeInPlace(k: Separators, str: array<char>, tokens: array<nat>, n: nat, ghost len: nat)
    returns (tokSize: nat)
    requires n <= len < str.Length
    requires str[len] == ZERO
    requires tokens.Length > n
    modifies str, tokens
    ensures tokSize == |Tokens(k, old(str[..len]), 0, n)|
    ensures Recorded(str[..], tokens[..], Tokens(k, old(str[..len]), 0, n), len + 1)
  {
    ghost var s := str[..len];
    tokSize := 1;
    tokens[0] := 0;
    var i := 0;
    ghost var done: seq<string>, st: nat := [], 0;
    while i < n
      invariant i <= n && tokSize == |done| + 1
      invariant Scanning(k, s, n, str[..], tokens[..], done, st, i)
    {
      if IsSep(k, str[i]) {
        i, tokSize, done := NextField(k, str, tokens, n, i, tokSize, s, done, st);
        if i == n {
          return; // the loop ends here: no field is left to scan
        }
        st := i;
      } else {
        ScanOn(k, s, n, str[..], tokens[..], done, st, i);
        i := i + 1;
      }
    }
    FinishField(k, s, n, str[..], tokens[..], done, st);
  }

  /** Reads the string at offset `p` of a buffer, as `strcmp` and `strcat` do. */
  method ReadString(str: array<char>, p: nat, ghost t: string) returns (r: string)
    requires StringAt(str[..], p, t)
    ensures r == t
  {
    var e := p;
    assert |t| > 0 ==> str[..][p..p + |t|][0] == t[0];
    while str[e] != ZERO
      invariant p <= e <= p + |t|
      invariant e < p + |t| ==> str[e] == t[e - p]
      decreases str.Length - e
    {
      e := e + 1;
      assert e < p + |t| ==> str[..][p..p + |t|][e - p] == t[e - p];
    }
    r := str[p..e];
  }

  /** A character that is not in the text is in no token. */
  lemma {:induction false} TokensWithin(k: Separators, s: string, i: nat, n: nat, q: nat, c: char)
    requires i <= n <= |s| && q < |Tokens(k, s, i, n)| && c !in s
    ensures c !in Tokens(k, s, i, n)[q]
    decreases n - i
  {
    var e := FieldEnd(k, s, i, n);
    if e < n && q > 0 {
      TokensWithin(k, s, BlankEnd(s, e + 1, n), n, q - 1, c);
    }
  }

  /** Reads the recorded strings. */
  method ReadTokens(str: array<char>, tokens: array<nat>, size: nat, ghost spec: seq<string>, ghost limit: nat)
    returns (ts: seq<string>)
    requires size == |spec| && Recorded(str[..], tokens[..], spec, limit)
    ensures |ts| == |spec| && forall q :: 0 <= q < |spec| ==> ts[q] == CString(spec[q])
  {
    ts := [];
    for q := 0 to size
      invariant |ts| == q && forall p :: 0 <= p < q ==> ts[p] == CString(spec[p])
    {
      assert StringAt(str[..], tokens[..][q], CString(spec[q]));
      var t := ReadString(str, tokens[q], CString(spec[q]));
      ts := ts + [t];
    }
  }

  /** Tokenizes a buffer that holds a text, its terminator and whatever lies behind it, and reads the tokens back. */
  method TokenizeBuffer(k: Separators, text: string, behind: string, n: nat) returns (ts: seq<string>)
    requires n <= |text| + 1 + |behind|
    ensures var spec := Tokens(k, text + [ZERO] + behind, 0, n);
            |ts| == |spec| && forall q :: 0 <= q < |spec| ==> ts[q] == CString(spec[q])
  {
    var all := text + [ZERO] + behind;
    var str := new char[|all| + 1](i requires 0 <= i => if i < |all| then all[i] else ZERO);
    assert str[..|all|] == all;
    var tokens := new nat[n + 1];
    var size := TokenizeInPlace(k, str, tokens, n, |all|);
    ts := ReadTokens(str, tokens, size, Tokens(k, all, 0, n), |all| + 1);
  }

  /** Copies a text into a buffer of its own, tokenizes it there and reads the tokens back. */
  method TokenizeText(k: Separators, text: string, n: nat) returns (ts: seq<string>)
    requires n <= |text| && ZERO !in text
    ensures ts == Tokens(k, text, 0, n)
  {
    var str := new char[|text| + 1](i requires 0 <= i => if i < |text| then text[i] else ZERO);
    assert str[..|text|] == text;
    var tokens := new nat[n + 1];
    var size := TokenizeInPlace(k, str, tokens, n, |text|);
    ghost var spec := Tokens(k, text, 0, n);
    ts := ReadTokens(str, tokens, size, spec, |text| + 1);
    forall q | 0 <= q < |spec| ensures ts[q] == spec[q] {
      TokensWithin(k, text, 0, n, q, ZERO);
      CStringIs(spec[q], |spec[q]|);
    }
  }

  // ---- what the separators are

  /** No word holds a blank or an equals sign, and no field but the rest behind the window holds a slash. */
  lemma {:induction false} TokensFree(k: Separators, s: string, i: nat, n: nat, q: nat)
    requires i <= n <= |s| && q < |Tokens(k, s, i, n)| && (n == |s| || q + 1 < |Tokens(k, s, i, n)|)
    ensures var t := Tokens(k, s, i, n)[q];
            match k case Words => ' ' !in t && '=' !in t case Fields => '/' !in t
    decreases n - i
  {
    var e := FieldEnd(k, s, i, n);
    FieldEndSkips(k, s, i, n);
    if e < n && q > 0 {
      TokensFree(k, s, BlankEnd(s, e + 1, n), n, q - 1);
    } else {
      assert forall j :: i <= j < e ==> !IsSep(k, s[j]);
    }
  }

  /** Every equals sign ends a word, so two of them leave an empty one; blanks behind a separator are skipped. */
  lemma WordsOf(s: string)
    requires s == "a= b==c"
    ensures AllTokens(Words, s) == ["a", "b", "", "c"]
  {
    TokensCut(Words, s, 0, 7, 1, 3);
    TokensCut(Words, s, 3, 7, 4, 5);
    TokensCut(Words, s, 5, 7, 5, 6);
    FieldEndIs(Words, s, 6, 7, 7);
    assert s[0..1] == "a" && s[3..4] == "b" && s[5..5] == "" && s[6..] == "c";
    assert Tokens(Words, s, 5, 7) == ["", "c"];
    assert Tokens(Words, s, 3, 7) == ["b", "", "c"];
  }
}
