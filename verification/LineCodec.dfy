/**
 The bulletin line `id/user/message` as the tokenizer sees it: what survives writing a line and reading it
 back, and what survives reading a line and writing it back.
 */
module LineCodec {
  import opened Common
  import opened Tokenize

  /** What the store shows under a message number. */
  datatype Entry = Entry(user: string, message: string)

  /** The answer to a read request. */
  function Shown(e: Entry): string {
    e.user + "/" + e.message
  }

  function Join(ts: seq<string>): string {
    if |ts| == 0 then "" else if |ts| == 1 then ts[0] else ts[0] + "/" + Join(ts[1..])
  }

  function FormatLine(id: string, user: string, message: string): string {
    id + ['/'] + (user + "/" + message)
  }

  function FieldsOf(line: string): (ts: seq<string>)
    ensures |ts| >= 1
  {
    AllTokens(Fields, line)
  }

  function KeyOf(line: string): string {
    FieldsOf(line)[0]
  }

  /** A line the two readers answer with a user and a message. */
  predicate HasEntry(line: string) {
    |FieldsOf(line)| >= 3
  }

  function EntryOf(line: string): Entry
    requires HasEntry(line)
  {
    Entry(FieldsOf(line)[1], Join(FieldsOf(line)[2..]))
  }

  /** What a reader gets for a line, if it has enough fields. */
  function LineEntry(line: string): Option<Entry> {
    if HasEntry(line) then Some(EntryOf(line)) else None
  }

  function Stripped(s: string): string {
    s[BlankEnd(s, 0, |s|)..]
  }

  predicate AllBlank(s: string) {
    BlankEnd(s, 0, |s|) == |s|
  }

  /** The fields of a text whose leading blanks are skipped, as they are behind a slash. */
  function After(s: string): seq<string> {
    TokensAfter(Fields, s, 0, |s|)
  }

  /** The fields of a written line behind its number. */
  function Behind(user: string, message: string): seq<string> {
    After(user + "/" + message)
  }

  /** The line that is written has an entry. */
  predicate Storable(user: string, message: string) {
    |Behind(user, message)| >= 2
  }

  /** What a written user and message read back as. */
  function Stored(user: string, message: string): Entry
    requires Storable(user, message)
  {
    Entry(Behind(user, message)[0], Join(Behind(user, message)[1..]))
  }

  /** What a reader gets for it, if anything. */
  function Reading(user: string, message: string): Option<Entry> {
    if Storable(user, message) then Some(Stored(user, message)) else None
  }

  /** An entry that survives being written back, as the undo of a replace does. */
  predicate Restorable(e: Entry) {
    Storable(e.user, e.message) && Stored(e.user, e.message) == e
  }

  /** The text a reader gets does not end in a slash. */
  predicate Whole(e: Entry) {
    Shown(e)[|Shown(e)| - 1] != '/'
  }

  /** Fields as they are found behind the number of a line. */
  predicate Legible(ts: seq<string>) {
    && |ts| >= 2
    && (forall q :: 0 <= q < |ts| ==> '/' !in ts[q])
    && (forall q :: 0 <= q < |ts| ==> ts[q] == "" || ts[q][0] != ' ')
  }

  /** An entry that can be read from some line. */
  ghost predicate Readable(e: Entry) {
    exists ts :: Legible(ts) && e == Entry(ts[0], Join(ts[1..]))
  }

  // ---- positions and text

  /** From position `p` on, `s'` reads like `s`. */
  predicate Reads(s': string, p: nat, s: string) {
    |s'| == p + |s| && forall j :: 0 <= j < |s| ==> s'[p + j] == s[j]
  }

  lemma ReadsSlice(s': string, p: nat, s: string, i: nat, e: nat)
    requires Reads(s', p, s) && i <= e <= |s|
    ensures s'[p + i..p + e] == s[i..e]
  {
  }

  lemma {:induction false} FieldEndShift(k: Separators, s': string, p: nat, s: string, i: nat, n: nat)
    requires Reads(s', p, s) && i <= n <= |s|
    ensures FieldEnd(k, s', p + i, p + n) == p + FieldEnd(k, s, i, n)
    decreases n - i
  {
    if i < n && !IsSep(k, s[i]) { FieldEndShift(k, s', p, s, i + 1, n); }
  }

  lemma {:induction false} BlankEndShift(s': string, p: nat, s: string, i: nat, n: nat)
    requires Reads(s', p, s) && i <= n <= |s|
    ensures BlankEnd(s', p + i, p + n) == p + BlankEnd(s, i, n)
    decreases n - i
  {
    if i < n && s[i] == ' ' { BlankEndShift(s', p, s, i + 1, n); }
  }

  lemma TokensLast(k: Separators, s: string, i: nat, n: nat)
    requires i <= n <= |s| && FieldEnd(k, s, i, n) == n
    ensures Tokens(k, s, i, n) == [s[i..|s|]]
  {
    assert s[i..] == s[i..|s|];
  }

  lemma FieldAndRest(k: Separators, s: string, i: nat, n: nat, e: nat, t: string, rest: seq<string>)
    requires i <= n <= |s| && FieldEnd(k, s, i, n) == e < n && s[i..e] == t && TokensAfter(k, s, e + 1, n) == rest
    ensures Tokens(k, s, i, n) == [t] + rest
  {
  }

  lemma ShiftedField(k: Separators, s': string, p: nat, s: string, i: nat, n: nat, rest: seq<string>)
    returns (t: string)
    requires Reads(s', p, s) && i <= n <= |s| && FieldEnd(k, s, i, n) < n
    requires rest == TokensAfter(k, s, FieldEnd(k, s, i, n) + 1, n)
    requires rest == TokensAfter(k, s', p + FieldEnd(k, s, i, n) + 1, p + n)
    ensures Tokens(k, s, i, n) == [t] + rest && Tokens(k, s', p + i, p + n) == [t] + rest
  {
    var e := FieldEnd(k, s, i, n);
    FieldEndShift(k, s', p, s, i, n);
    ReadsSlice(s', p, s, i, e);
    t := s[i..e];
    FieldAndRest(k, s, i, n, e, t, rest);
    FieldAndRest(k, s', p + i, p + n, p + e, t, rest);
  }

  /** Text in front of the starting position does not matter. */
  lemma {:induction false} TokensShift(k: Separators, s': string, p: nat, s: string, i: nat, n: nat)
    requires Reads(s', p, s) && i <= n <= |s|
    ensures Tokens(k, s', p + i, p + n) == Tokens(k, s, i, n)
    decreases n - i, 0
  {
    var e := FieldEnd(k, s, i, n);
    if e < n {
      TokensAfterShift(k, s', p, s, e + 1, n);
      var t := ShiftedField(k, s', p, s, i, n, TokensAfter(k, s, e + 1, n));
    } else {
      FieldEndShift(k, s', p, s, i, n);
      ReadsSlice(s', p, s, i, |s|);
      TokensLast(k, s', p + i, p + n);
      TokensLast(k, s, i, n);
    }
  }

  lemma {:induction false} TokensAfterShift(k: Separators, s': string, p: nat, s: string, i: nat, n: nat)
    requires Reads(s', p, s) && i <= n <= |s|
    ensures TokensAfter(k, s', p + i, p + n) == TokensAfter(k, s, i, n)
    decreases n - i, 1
  {
    BlankEndShift(s', p, s, i, n);
    var b := BlankEnd(s, i, n);
    if b < n {
      TokensShift(k, s', p, s, b, n);
    }
  }

  lemma TokensAfterAppended(k: Separators, a: string, rest: string, s: string)
    requires s == a + rest
    ensures TokensAfter(k, s, |a|, |s|) == TokensAfter(k, rest, 0, |rest|)
  {
    TokensAfterShift(k, s, |a|, rest, 0, |rest|);
  }

  lemma TokensAppended(k: Separators, a: string, rest: string, s: string)
    requires s == a + rest
    ensures Tokens(k, s, |a|, |s|) == AllTokens(k, rest)
  {
    TokensShift(k, s, |a|, rest, 0, |rest|);
  }

  /** A first field without separators, followed by a separator and `rest`. */
  lemma TokensFirst(k: Separators, t: string, sep: char, rest: string, s: string)
    requires s == t + [sep] + rest
    requires IsSep(k, sep) && forall j :: 0 <= j < |t| ==> !IsSep(k, t[j])
    ensures AllTokens(k, s) == [t] + TokensAfter(k, rest, 0, |rest|)
  {
    assert forall j :: 0 <= j < |t| ==> s[j] == t[j];
    FieldEndIs(k, s, 0, |s|, |t|);
    assert s[0..|t|] == t;
    TokensAfterAppended(k, t + [sep], rest, s);
  }

  lemma TokensSingle(k: Separators, t: string)
    requires forall j :: 0 <= j < |t| ==> !IsSep(k, t[j])
    ensures AllTokens(k, t) == [t]
  {
    FieldEndIs(k, t, 0, |t|, |t|);
    assert t[0..] == t;
  }

  lemma {:induction false} JoinSnoc(ts: seq<string>, t: string)
    ensures Join(ts + [t]) == if |ts| == 0 then t else Join(ts) + "/" + t
  {
    if |ts| == 0 {
      assert ts + [t] == [t];
    } else {
      assert (ts + [t])[1..] == ts[1..] + [t];
      JoinSnoc(ts[1..], t);
      if |ts| > 1 {
        assert Join(ts) + "/" + t == ts[0] + "/" + (Join(ts[1..]) + "/" + t);
      }
    }
  }

  // ---- reading a line and writing it back

  /** Every slash before `n` is followed, still before `n`, by a character that is not a blank. */
  ghost predicate Faithful(s: string, i: nat, n: nat)
    requires n <= |s|
  {
    forall j :: i <= j < n && s[j] == '/' ==> j + 1 < n && s[j + 1] != ' '
  }

  lemma {:induction false} JoinTokensShorter(s: string, i: nat, n: nat)
    requires i <= n <= |s|
    ensures |Join(Tokens(Fields, s, i, n))| <= |s| - i
    decreases n - i
  {
    var e := FieldEnd(Fields, s, i, n);
    if e < n {
      var b := BlankEnd(s, e + 1, n);
      if b < n {
        JoinTokensShorter(s, b, n);
        assert ([s[i..e]] + Tokens(Fields, s, b, n))[1..] == Tokens(Fields, s, b, n);
      }
    }
  }

  lemma {:induction false} JoinTokensChars(s: string, i: nat, n: nat, c: char)
    requires i <= n <= |s| && c !in s
    ensures c !in Join(Tokens(Fields, s, i, n))
    decreases n - i
  {
    var e := FieldEnd(Fields, s, i, n);
    if e < n {
      assert s[e] == '/';
      var b := BlankEnd(s, e + 1, n);
      if b < n {
        JoinTokensChars(s, b, n, c);
        assert ([s[i..e]] + Tokens(Fields, s, b, n))[1..] == Tokens(Fields, s, b, n);
      }
    }
  }

  /** Splitting at slashes and joining with slashes loses text exactly where a slash is not followed by a
      character of the next field. */
  lemma {:induction false} JoinTokens(s: string, i: nat, n: nat)
    requires i <= n <= |s|
    ensures Join(Tokens(Fields, s, i, n)) == s[i..] <==> Faithful(s, i, n)
    decreases n - i
  {
    var e := FieldEnd(Fields, s, i, n);
    FieldEndSkips(Fields, s, i, n);
    if e < n {
      var b := BlankEnd(s, e + 1, n);
      if b == n {
        assert !Faithful(s, i, n) by { assert s[e] == '/'; }
      } else {
        var ts := Tokens(Fields, s, b, n);
        assert ([s[i..e]] + ts)[1..] == ts;
        if b > e + 1 {
          JoinTokensShorter(s, b, n);
          assert !Faithful(s, i, n) by { assert s[e] == '/' && s[e + 1] == ' '; }
        } else {
          JoinTokens(s, b, n);
          SamePrefix(s, i, e, Join(ts));
          assert s[e] == '/' && (Faithful(s, i, n) <==> Faithful(s, b, n));
        }
      }
    }
  }

  lemma SamePrefix(s: string, i: nat, e: nat, t: string)
    requires i <= e < |s| && s[e] == '/'
    ensures s[i..e] + "/" + t == s[i..] <==> t == s[e + 1..]
  {
    var l := s[i..e] + "/";
    assert s[i..] == l + s[e + 1..];
    assert (l + t)[|l|..] == t && (l + s[e + 1..])[|l|..] == s[e + 1..];
  }

  // ---- writing fields and reading them back

  /** What the tokenizer hands out: no slash in a field, no leading blank except in the first one. */
  ghost predicate CleanFields(ts: seq<string>) {
    && |ts| >= 1
    && (forall q :: 0 <= q < |ts| ==> '/' !in ts[q])
    && (forall q :: 0 < q < |ts| ==> ts[q] == "" || ts[q][0] != ' ')
  }

  lemma {:induction false} TokensClean(s: string, i: nat, n: nat)
    requires i <= n <= |s| && n == |s|
    ensures CleanFields(Tokens(Fields, s, i, n))
    ensures i < n && s[i] != ' ' ==>
              var t := Tokens(Fields, s, i, n)[0]; t == "" || t[0] != ' '
    decreases n - i
  {
    var e := FieldEnd(Fields, s, i, n);
    FieldEndSkips(Fields, s, i, n);
    if e < n {
      var b := BlankEnd(s, e + 1, n);
      if b < n {
        TokensClean(s, b, n);
      }
    }
  }

  /** Reading back joined fields gives the fields, except that an empty last field is lost. */
  lemma {:induction false} TokensOfJoin(ts: seq<string>)
    requires CleanFields(ts)
    ensures FieldsOf(Join(ts)) == if |ts| > 1 && ts[|ts| - 1] == "" then ts[..|ts| - 1] else ts
    decreases |ts|, 0
  {
    if |ts| == 1 {
      TokensSingle(Fields, ts[0]);
    } else {
      var rest := Join(ts[1..]);
      TokensFirst(Fields, ts[0], '/', rest, Join(ts));
      if |ts| == 2 && ts[1] == "" {
      } else {
        assert |rest| > 0 && rest[0] != ' ' by {
          assert ts[1..][0] == ts[1];
          assert ts[1] != "" ==> rest[0] == ts[1][0];
          assert ts[1] == "" ==> rest[0] == '/';
        }
        BlankEndIs(rest, 0, |rest|, 0);
        RestOfJoin(ts);
      }
    }
  }

  lemma {:induction false} RestOfJoin(ts: seq<string>)
    requires CleanFields(ts) && |ts| > 1 && !(|ts| == 2 && ts[1] == "")
    ensures [ts[0]] + FieldsOf(Join(ts[1..])) == if ts[|ts| - 1] == "" then ts[..|ts| - 1] else ts
    decreases |ts| - 1, 1
  {
    var us := ts[1..];
    TokensOfJoin(us);
    assert [ts[0]] + us == ts;
    if us[|us| - 1] == "" {
      assert [ts[0]] + us[..|us| - 1] == ts[..|ts| - 1];
    }
  }

  // ---- the number of fields

  ghost predicate NonBlankFrom(s: string, i: nat, n: nat)
    requires n <= |s|
  {
    exists j :: i <= j < n && s[j] != ' '
  }

  /** The slashes in `s[i..n]` that have a character other than a blank somewhere behind them. */
  ghost function LiveSlashes(s: string, i: nat, n: nat): nat
    requires i <= n <= |s|
    decreases n - i
  {
    if i == n then 0
    else (if s[i] == '/' && NonBlankFrom(s, i + 1, n) then 1 else 0) + LiveSlashes(s, i + 1, n)
  }

  lemma {:induction false} NoSlashes(s: string, i: nat, e: nat, n: nat)
    requires i <= e <= n <= |s| && forall j :: i <= j < e ==> s[j] != '/'
    ensures LiveSlashes(s, i, n) == LiveSlashes(s, e, n)
    decreases e - i
  {
    if i < e { NoSlashes(s, i + 1, e, n); }
  }

  /** One field, and one more for every slash with text behind it. */
  lemma {:induction false} FieldCount(s: string, i: nat, n: nat)
    requires i <= n <= |s|
    ensures |Tokens(Fields, s, i, n)| == 1 + LiveSlashes(s, i, n)
    decreases n - i
  {
    var e := FieldEnd(Fields, s, i, n);
    FieldEndSkips(Fields, s, i, n);
    NoSlashes(s, i, e, n);
    if e < n {
      var b := BlankEnd(s, e + 1, n);
      BlankEndSkips(s, e + 1, n);
      NoSlashes(s, e + 1, b, n);
      if b < n {
        FieldCount(s, b, n);
      } else {
        assert !NonBlankFrom(s, e + 1, n);
      }
    }
  }

  // ---- what is behind the number

  lemma SkipBlank(k: Separators, s: string, i: nat)
    requires i < |s| && s[i] == ' '
    ensures TokensAfter(k, s, i, |s|) == TokensAfter(k, s, i + 1, |s|)
  {
    assert BlankEnd(s, i, |s|) == BlankEnd(s, i + 1, |s|);
  }

  /** A blank in front makes no difference. */
  lemma BlankInFront(k: Separators, s: string, s': string)
    requires s' == " " + s
    ensures TokensAfter(k, s', 0, |s'|) == TokensAfter(k, s, 0, |s|)
  {
    SkipBlank(k, s', 0);
    TokensAfterAppended(k, " ", s, s');
  }

  /** A slash cuts a text in two. */
  lemma {:induction false} SlashFrom(a: string, m: string, s: string, s1: string, i: nat)
    requires i <= |a| && s1 == a + "/" && s == s1 + m
    ensures Tokens(Fields, s, i, |s|) == Tokens(Fields, s1, i, |s1|) + After(m)
    decreases |a| - i
  {
    var e := FieldEnd(Fields, s1, i, |s1|);
    SlashEnds(a, s1, i);
    FieldEndSkips(Fields, s1, i, |s1|);
    FieldEndIs(Fields, s, i, |s|, e);
    assert s[i..e] == s1[i..e];
    if e == |a| {
      TokensAfterAppended(Fields, s1, m, s);
    } else {
      var b := BlankEnd(s1, e + 1, |s1|);
      BlankEndSkips(s1, e + 1, |s1|);
      assert b <= |a| by { assert s1[|a|] == '/'; }
      BlankEndIs(s, e + 1, |s|, b);
      SlashFrom(a, m, s, s1, b);
      Associate([s[i..e]], Tokens(Fields, s1, b, |s1|), After(m));
    }
  }

  lemma SlashEnds(a: string, s1: string, i: nat)
    requires i <= |a| && s1 == a + "/"
    ensures FieldEnd(Fields, s1, i, |s1|) <= |a|
  {
    FieldEndSkips(Fields, s1, i, |s1|);
    assert s1[|a|] == '/';
  }

  lemma AfterSlash(a: string, m: string, s: string)
    requires s == a + "/" + m
    ensures After(s) == After(a + "/") + After(m)
  {
    var s1 := a + "/";
    var b := BlankEnd(s1, 0, |s1|);
    BlankEndSkips(s1, 0, |s1|);
    assert b <= |a| by { assert s1[|a|] == '/'; }
    BlankEndIs(s, 0, |s|, b);
    SlashFrom(a, m, s, s1, b);
  }

  lemma AllTokensSlash(a: string, m: string, s: string)
    requires s == a + "/" + m
    ensures FieldsOf(s) == FieldsOf(a + "/") + After(m)
  {
    SlashFrom(a, m, s, a + "/", 0);
  }

  lemma AfterStarts(s: string)
    ensures AllBlank(s) <==> After(s) == []
  {
  }

  /** The fields of a line behind its number: those of the user, closed by the slash, and those of the message. */
  lemma BehindParts(user: string, message: string)
    ensures Behind(user, message) == After(user + "/") + After(message)
    ensures |After(user + "/")| >= 1
    ensures !AllBlank(message) ==> Storable(user, message)
  {
    AfterSlash(user, message, user + "/" + message);
    var s := user + "/";
    BlankEndSkips(s, 0, |s|);
    assert s[|user|] == '/';
  }

  lemma PlainUser(user: string)
    requires '/' !in user
    ensures After(user + "/") == [Stripped(user)]
  {
    var s, b := user + "/", BlankEnd(user, 0, |user|);
    BlankEndSkips(user, 0, |user|);
    BlankEndIs(s, 0, |s|, b);
    FieldEndIs(Fields, s, b, |s|, |user|);
    assert s[b..|user|] == user[b..];
    assert TokensAfter(Fields, s, |user| + 1, |s|) == [];
    assert Tokens(Fields, s, b, |s|) == [user[b..]] + [];
  }

  /** What a line with a user without slashes reads back as. */
  lemma PlainStored(user: string, message: string)
    requires '/' !in user
    ensures Storable(user, message) <==> !AllBlank(message)
    ensures Storable(user, message) ==> Stored(user, message) == Entry(Stripped(user), Join(After(message)))
  {
    BehindParts(user, message);
    PlainUser(user);
    AfterStarts(message);
    assert Behind(user, message)[1..] == After(message);
  }

  /** The fields of a written line. */
  lemma FieldsOfFormat(id: string, user: string, message: string)
    requires '/' !in id
    ensures FieldsOf(FormatLine(id, user, message)) == [id] + Behind(user, message)
  {
    TokensFirst(Fields, id, '/', user + "/" + message, FormatLine(id, user, message));
  }

  /** A written line has its number as the key and reads back as `Reading` says. */
  lemma StoredLine(id: string, user: string, message: string)
    requires '/' !in id
    ensures KeyOf(FormatLine(id, user, message)) == id
    ensures LineEntry(FormatLine(id, user, message)) == Reading(user, message)
  {
    FieldsOfFormat(id, user, message);
    var rest := Behind(user, message);
    assert |rest| >= 2 ==> ([id] + rest)[2..] == rest[1..];
  }

  lemma BehindLegible(user: string, message: string)
    requires Storable(user, message)
    ensures Legible(Behind(user, message))
  {
    var s := user + "/" + message;
    var b := BlankEnd(s, 0, |s|);
    TokensClean(s, b, |s|);
  }

  /** The line round trip, with its exact condition. */
  lemma LineRoundTrip(id: string, user: string, message: string)
    requires '/' !in id && Storable(user, message)
    ensures HasEntry(FormatLine(id, user, message))
    ensures EntryOf(FormatLine(id, user, message)) == Entry(user, message)
       <==> '/' !in user && (user == "" || user[0] != ' ')
            && message != "" && message[0] != ' ' && Faithful(message, 0, |message|)
  {
    StoredLine(id, user, message);
    BehindLegible(user, message);
    if '/' !in user {
      PlainStored(user, message);
      StrippedSame(user);
      MessageSame(message);
    }
  }

  lemma StrippedSame(s: string)
    ensures Stripped(s) == s <==> s == "" || s[0] != ' '
  {
    if s == "" || s[0] != ' ' {
      BlankEndIs(s, 0, |s|, 0);
    } else {
      assert |Stripped(s)| < |s|;
    }
  }

  lemma MessageSame(message: string)
    requires !AllBlank(message)
    ensures Join(After(message)) == message <==> message[0] != ' ' && Faithful(message, 0, |message|)
  {
    var b := BlankEnd(message, 0, |message|);
    JoinTokens(message, b, |message|);
    JoinTokensShorter(message, b, |message|);
    assert message[0..] == message;
  }

  lemma {:induction false} JoinDropLast(ts: seq<string>)
    requires |ts| > 1
    ensures |Join(ts)| == |Join(ts[..|ts| - 1])| + 1 + |ts[|ts| - 1]|
    decreases |ts|
  {
    if |ts| > 2 {
      JoinDropLast(ts[1..]);
      assert ts[1..][..|ts| - 2] == ts[..|ts| - 1][1..];
    }
  }

  /** Glued fields end as the last field does, or in a slash if it is empty. */
  lemma {:induction false} JoinEnd(ts: seq<string>)
    requires |ts| >= 1
    ensures var l := ts[|ts| - 1];
            && (l != "" ==> Join(ts) != "" && Join(ts)[|Join(ts)| - 1] == l[|l| - 1])
            && (l == "" && |ts| > 1 ==> Join(ts) != "" && Join(ts)[|Join(ts)| - 1] == '/')
  {
    if |ts| > 1 {
      JoinEnd(ts[1..]);
    }
  }

  /** Writing back the user and message that were read restores them unless there is an empty field at the end. */
  lemma WriteBackFields(ts: seq<string>)
    requires Legible(ts)
    ensures Restorable(Entry(ts[0], Join(ts[1..]))) <==> ts[|ts| - 1] != ""
  {
    var us, m := ts[1..], Join(ts[1..]);
    PlainStored(ts[0], m);
    StrippedSame(ts[0]);
    if |us| == 1 && us[0] == "" {
      assert m == "";
    } else {
      assert |m| > 0 && m[0] != ' ' by {
        assert us[0] == ts[1];
        assert us[0] != "" ==> m[0] == us[0][0];
      }
      BlankEndIs(m, 0, |m|, 0);
      TokensOfJoin(us);
      assert m[0..] == m;
      if us[|us| - 1] == "" {
        JoinDropLast(us);
      }
    }
  }

  /** In terms of the line. */
  lemma WriteBack(line: string)
    requires HasEntry(line)
    ensures Restorable(EntryOf(line)) <==> FieldsOf(line)[|FieldsOf(line)| - 1] != ""
    ensures Readable(EntryOf(line))
  {
    var ts := FieldsOf(line);
    TokensClean(line, 0, |line|);
    var us := ts[1..];
    assert us[1..] == ts[2..];
    assert Legible(us);
    WriteBackFields(us);
  }

  /** In terms of what a reader gets. */
  lemma RestorableIfWhole(e: Entry)
    requires Readable(e)
    ensures Restorable(e) <==> Whole(e)
  {
    var ts :| Legible(ts) && e == Entry(ts[0], Join(ts[1..]));
    WriteBackFields(ts);
    JoinEnd(ts);
    assert Join(ts) == ts[0] + "/" + Join(ts[1..]);
  }

  /** Whatever is written can be read. */
  lemma StoredReadable(user: string, message: string)
    requires Storable(user, message)
    ensures Readable(Stored(user, message))
  {
    BehindLegible(user, message);
  }

  /** Padding in front of a user name is not visible. */
  lemma PaddingInvisible(user: string, message: string)
    ensures Behind(" " + user, message) == Behind(user, message)
  {
    var s := user + "/" + message;
    assert " " + user + "/" + message == " " + s;
    BlankInFront(Fields, s, " " + s);
  }

  /** What is shown of a line is what stands behind its number, as far as it survives the tokenizer; all of it if every
      slash is followed by a character that is not a blank. */
  lemma ShownIs(line: string)
    requires HasEntry(line)
    ensures Shown(EntryOf(line)) == Join(FieldsOf(line)[1..])
    ensures KeyOf(line) + "/" + Shown(EntryOf(line)) == line <==> Faithful(line, 0, |line|)
  {
    var ts := FieldsOf(line);
    assert ts[1..][1..] == ts[2..];
    JoinTokens(line, 0, |line|);
    assert line[0..] == line;
    assert Join(ts) == ts[0] + "/" + Join(ts[1..]);
  }
}
