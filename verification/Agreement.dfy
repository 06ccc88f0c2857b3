/**
 When the master and a peer store the same.  On the way over the wire a text loses its empty words; a reader does
 not notice exactly those that stand where blanks are skipped.
 */
module Agreement {
  import opened Common
  import opened Tokenize
  import opened LineCodec
  import opened FieldText
  import opened PeerProtocol
  import opened Wire

  predicate EndsInSlash(w: string) {
    w != "" && w[|w| - 1] == '/'
  }

  /** All empty words stand where blanks are skipped; `open` says whether they are at the start. */
  predicate Skipped(open: bool, ws: seq<string>)
    decreases |ws|
  {
    |ws| == 0 || (
      if ws[0] == "" then open && Skipped(true, ws[1..])
      else Skipped(EndsInSlash(ws[0]), ws[1..]))
  }

  /** Two lists of fields, the second of which has lost some blanks: none exactly if `same`. */
  predicate Lost(ts: seq<string>, us: seq<string>, same: bool) {
    && Size(us) <= Size(ts)
    && (ts == us <==> same)
    && (Size(ts) == Size(us) <==> same)
  }

  lemma OpenWord(a: string, w: string)
    requires w != "" && IsWord(w)
    ensures OpenAt(a + (" " + w)) == EndsInSlash(w)
  {
    var s := a + (" " + w);
    assert s[|s| - 1] == w[|w| - 1] && !IsSep(Words, w[|w| - 1]);
  }

  /** Dropping the empty words in the middle of a text. */
  lemma {:induction false} Squeeze(a: string, ws: seq<string>, z: string)
    requires AllWords(ws)
    ensures Lost(After(a + (Padded(ws) + z)), After(a + (Padded(NonEmpty(ws)) + z)), Skipped(OpenAt(a), ws))
    ensures |After(a + (Padded(ws) + z))| == |After(a + (Padded(NonEmpty(ws)) + z))|
    decreases |ws|
  {
    if |ws| > 0 {
      var w, rest := ws[0], ws[1..];
      if w == "" {
        Squeeze(a, rest, z);
        assert a + (Padded(ws) + z) == a + (" " + (Padded(rest) + z));
        if OpenAt(a) { OpenBlank(a, Padded(rest) + z); } else { ClosedBlank(a, Padded(rest) + z); }
      } else {
        var a' := a + (" " + w);
        Squeeze(a', rest, z);
        OpenWord(a, w);
        assert a + (Padded(ws) + z) == a' + (Padded(rest) + z);
        assert ([w] + NonEmpty(rest))[1..] == NonEmpty(rest);
        assert a + (Padded(NonEmpty(ws)) + z) == a' + (Padded(NonEmpty(rest)) + z);
      }
    }
  }

  /** The padding itself is not visible. */
  lemma RebuiltAfter(ws: seq<string>, z: string)
    ensures After(Rebuilt(ws) + z) == After(Padded(ws) + z)
  {
    if |ws| == 1 {
      assert Padded(ws[1..]) == "" && Padded(ws) == " " + ws[0];
      BlankInFront(Fields, ws[0] + z, Padded(ws) + z);
      assert Padded(ws) + z == " " + (ws[0] + z);
    }
  }

  lemma SqueezeRebuilt(ws: seq<string>, z: string)
    requires AllWords(ws)
    ensures Lost(After(Rebuilt(ws) + z), After(Rebuilt(NonEmpty(ws)) + z), Skipped(true, ws))
    ensures |After(Rebuilt(ws) + z)| == |After(Rebuilt(NonEmpty(ws)) + z)|
  {
    RebuiltAfter(ws, z);
    RebuiltAfter(NonEmpty(ws), z);
    Squeeze("", ws, z);
    assert "" + (Padded(ws) + z) == Padded(ws) + z;
    assert "" + (Padded(NonEmpty(ws)) + z) == Padded(NonEmpty(ws)) + z;
  }

  // ---- names

  /** The name of a client: what it gave, padded; `nobody` if it never gave one. */
  function UserText(names: seq<string>): string {
    if names == [] then "nobody" else Padded(names)
  }

  function HeardUser(names: seq<string>): string {
    if names == [] then "nobody" else Rebuilt(NonEmpty(names))
  }

  lemma PrecommitHeard(names: seq<string>)
    requires AllWords(names)
    ensures Parse(PrecommitLine(UserText(names)))
         == if names != [] && NonEmpty(names) == [] then Bad else Precommit(HeardUser(names))
  {
    if names == [] { NobodyHeard(); } else { UserHeard(names); }
  }

  lemma NamesLost(names: seq<string>)
    requires AllWords(names)
    ensures Lost(After(UserText(names) + "/"), After(HeardUser(names) + "/"), Skipped(true, names))
    ensures |After(UserText(names) + "/")| == |After(HeardUser(names) + "/")|
  {
    if names != [] {
      RebuiltAfter(names, "/");
      SqueezeRebuilt(names, "/");
    }
  }

  /** Losing blanks in the user or in the message shows in the entry. */
  lemma EntriesDiffer(user: string, message: string, user': string, message': string, same: bool, same': bool)
    requires Lost(After(user + "/"), After(user' + "/"), same) && Lost(After(message), After(message'), same')
    requires Storable(user, message)
    ensures Reading(user', message') == Reading(user, message) <==> same && same'
  {
    BehindParts(user, message);
    BehindParts(user', message');
    if !(same && same') && Storable(user', message') {
      BehindSize(user, message);
      BehindSize(user', message');
      ShownSize(user, message);
      ShownSize(user', message');
    }
  }

  // ---- writes

  lemma {:induction false} SomeWord(ws: seq<string>)
    requires AllWords(ws) && NonEmpty(ws) != []
    ensures !AllBlank(Padded(ws))
  {
    BlankEndSkips(Padded(ws), 0, |Padded(ws)|);
    if ws[0] == "" {
      SomeWord(ws[1..]);
      assert Padded(ws) == " " + Padded(ws[1..]);
      BlankInFront(Fields, Padded(ws[1..]), Padded(ws));
      AfterStarts(Padded(ws));
      AfterStarts(Padded(ws[1..]));
    } else {
      assert Padded(ws)[1] == ws[0][0] && !IsSep(Words, ws[0][0]);
    }
  }

  /** A peer that accepts a write stores the entry that the master stores exactly if the empty words of the name and
      of the message stand where blanks are skipped.  It refuses a name or a message without a word. */
  lemma WriteAgrees(names: seq<string>, id: string, ws: seq<string>)
    requires AllWords(names) && IsWord(id) && id != "" && |ws| >= 1 && AllWords(ws)
    ensures var p, c := Parse(PrecommitLine(UserText(names))), Parse(CommitWriteLine(id, Rebuilt(ws)));
            && (p.Precommit? <==> names == [] || NonEmpty(names) != [])
            && (c.CommitWrite? <==> NonEmpty(ws) != [])
            && (p.Precommit? && c.CommitWrite? ==>
                  (Reading(p.user, c.message) == Reading(UserText(names), Rebuilt(ws))
                   <==> Skipped(true, names) && Skipped(true, ws)))
  {
    PrecommitHeard(names);
    WriteHeard(id, ws);
    if NonEmpty(ws) != [] {
      MessageHeard(names, ws);
    }
  }

  lemma MessageHeard(names: seq<string>, ws: seq<string>)
    requires AllWords(names) && AllWords(ws) && NonEmpty(ws) != []
    ensures Reading(HeardUser(names), Rebuilt(NonEmpty(ws))) == Reading(UserText(names), Rebuilt(ws))
       <==> Skipped(true, names) && Skipped(true, ws)
  {
    NamesLost(names);
    SqueezeRebuilt(ws, "");
    assert Rebuilt(ws) + "" == Rebuilt(ws) && Rebuilt(NonEmpty(ws)) + "" == Rebuilt(NonEmpty(ws));
    SomeWord(ws);
    RebuiltAfter(ws, "");
    assert Padded(ws) + "" == Padded(ws);
    AfterStarts(Padded(ws));
    AfterStarts(Rebuilt(ws));
    BehindParts(UserText(names), Rebuilt(ws));
    EntriesDiffer(UserText(names), Rebuilt(ws), HeardUser(names), Rebuilt(NonEmpty(ws)),
                  Skipped(true, names), Skipped(true, ws));
  }
}
