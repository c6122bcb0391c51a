/** The MIME types a renderer supports, and the text that announces them. */
module MimeTypes {
  import opened Memory

  // ---- The registry ----

  /** Entries are kept once, the latest first. */
  function Added(types: seq<string>, mimeType: string): seq<string> {
    if mimeType in types then types else [mimeType] + types
  }

  function AddedAll(types: seq<string>, more: seq<string>): seq<string> {
    if more == [] then types else Added(AddedAll(types, more[..|more| - 1]), more[|more| - 1])
  }

  /** Names under which players look for a type, besides its own. */
  function Aliases(mimeType: string): seq<string> {
    if mimeType == "audio/mpeg" then ["audio/x-mpeg", "audio/x-scpls", L16]
    else if mimeType == "audio/x-alac" then ["audio/alac"]
    else if mimeType == "audio/x-aiff" then ["audio/aiff"]
    else if mimeType == "audio/x-m4a" then ["audio/m4a", "audio/mp4"]
    else []
  }

  const L16 := "audio/L16;rate=44100;channels=2"

  ghost predicate Distinct(types: seq<string>) {
    forall i, j :: 0 <= i < j < |types| ==> types[i] != types[j]
  }

  class Registry {
    var supported: seq<string>

    constructor ()
      ensures supported == []
    {
      supported := [];
    }

    method RegisterInternal(mimeType: string)
      modifies this
      ensures supported == Added(old(supported), mimeType)
    {
      for i := 0 to |supported|
        invariant mimeType !in supported[..i] && supported == old(supported)
      {
        if supported[i] == mimeType {
          return;
        }
        assert supported[..i + 1] == supported[..i] + [supported[i]];
      }
      assert supported[..|supported|] == supported;
      supported := [mimeType] + supported;
    }

    method Register(mimeType: string)
      modifies this
      ensures supported == AddedAll(old(supported), [mimeType] + Aliases(mimeType))
      decreases if mimeType == "audio/mpeg" then 1 else 0
    {
      AliasNamesDiffer();
      ghost var before := supported;
      RegisterInternal(mimeType);
      if mimeType == "audio/mpeg" {
        RegisterInternal("audio/x-mpeg");
        RegisterInternal("audio/x-scpls");
        Register(L16);
      }
      if mimeType == "audio/x-alac" {
        RegisterInternal("audio/alac");
      }
      if mimeType == "audio/x-aiff" {
        RegisterInternal("audio/aiff");
      }
      if mimeType == "audio/x-m4a" {
        RegisterInternal("audio/m4a");
        RegisterInternal("audio/mp4");
      }
      AddedOneByOne(before, mimeType, Aliases(mimeType));
    }
  }

  lemma AliasNamesDiffer()
    ensures "audio/mpeg" != "audio/x-alac" && "audio/mpeg" != "audio/x-aiff" && "audio/mpeg" != "audio/x-m4a"
    ensures "audio/x-alac" != "audio/x-aiff" && "audio/x-alac" != "audio/x-m4a" && "audio/x-aiff" != "audio/x-m4a"
    ensures L16 != "audio/mpeg" && Aliases(L16) == []
  {
  }

  lemma AddedOneByOne(types: seq<string>, first: string, more: seq<string>)
    requires |more| <= 3
    ensures var t := Added(types, first);
            AddedAll(types, [first] + more)
            == if |more| == 0 then t
               else if |more| == 1 then Added(t, more[0])
               else if |more| == 2 then Added(Added(t, more[0]), more[1])
               else Added(Added(Added(t, more[0]), more[1]), more[2])
  {
    AddedNext(types, [], first);
    if |more| >= 1 {
      AddedNext(types, [first], more[0]);
    }
    if |more| >= 2 {
      AddedNext(types, [first] + [more[0]], more[1]);
    }
    if |more| >= 3 {
      AddedNext(types, [first] + [more[0]] + [more[1]], more[2]);
    }
    assert [first] + more
        == if |more| == 0 then [] + [first]
           else if |more| == 1 then [first] + [more[0]]
           else if |more| == 2 then [first] + [more[0]] + [more[1]]
           else [first] + [more[0]] + [more[1]] + [more[2]];
  }

  lemma AddedNext(types: seq<string>, more: seq<string>, m: string)
    ensures AddedAll(types, more + [m]) == Added(AddedAll(types, more), m)
  {
  }

  /** The types registered are those from before and the new ones. */
  lemma {:induction false} AddingAddsAll(types: seq<string>, more: seq<string>, m: string)
    ensures m in AddedAll(types, more) <==> m in types || m in more
    decreases |more|
  {
    if more != [] {
      AddingAddsAll(types, more[..|more| - 1], m);
      assert more == more[..|more| - 1] + [more[|more| - 1]];
    }
  }

  /** Are these types the end of the list `t`? */
  ghost predicate EndsWith(t: seq<string>, types: seq<string>) {
    |t| >= |types| && t[|t| - |types|..] == types
  }

  lemma EndsTwice(t: seq<string>, u: seq<string>, types: seq<string>)
    requires EndsWith(t, u) && EndsWith(u, types)
    ensures EndsWith(t, types)
  {
  }

  lemma AddedIsDistinct(types: seq<string>, m: string)
    requires Distinct(types)
    ensures Distinct(Added(types, m)) && EndsWith(Added(types, m), types)
  {
  }

  /** What was registered stays, in its order, and none comes twice. */
  lemma {:induction false} AddingKeepsDistinct(types: seq<string>, more: seq<string>)
    requires Distinct(types)
    ensures Distinct(AddedAll(types, more)) && EndsWith(AddedAll(types, more), types)
    decreases |more|
  {
    if more != [] {
      var u := AddedAll(types, more[..|more| - 1]);
      AddingKeepsDistinct(types, more[..|more| - 1]);
      AddedIsDistinct(u, more[|more| - 1]);
      EndsTwice(AddedAll(types, more), u, types);
    }
  }

  // ---- The announcement ----

  const PREFIX := "http-get:*:"
  const SUFFIX := ":*"

  function Entry(mimeType: string): string {
    PREFIX + mimeType + SUFFIX
  }

  /** All entries, separated by commas. */
  function Announcement(types: seq<string>): string
    requires types != []
  {
    if |types| == 1 then Entry(types[0])
    else Announcement(types[..|types| - 1]) + "," + Entry(types[|types| - 1])
  }

  /** The buffer is made larger by just what the next entry and a comma take. */
  method AppendEntry(buf: array<char>, mimeType: string) returns (bigger: array<char>)
    ensures fresh(bigger) && bigger[..] == buf[..] + Entry(mimeType) + ","
  {
    bigger := new char[buf.Length + |mimeType| + 1 + 8 + 3 + 2];
    CopyTo(bigger, 0, buf[..]);
    var p := buf.Length;
    assert bigger[..p] == buf[..];
    CopyTo(bigger, p, PREFIX);
    p := p + 11;
    assert bigger[..p] == buf[..] + PREFIX;
    CopyTo(bigger, p, mimeType);
    p := p + |mimeType|;
    assert bigger[..p] == buf[..] + PREFIX + mimeType;
    CopyTo(bigger, p, ":*,");
    p := p + 3;
    assert p == bigger.Length && bigger[..] == bigger[..p];
    EntryInParts(buf[..], mimeType);
  }

  lemma EntryInParts(before: string, mimeType: string)
    ensures before + PREFIX + mimeType + ":*," == before + Entry(mimeType) + ","
  {
  }

  /** The last comma makes room for the terminating NUL: the buffer is filled exactly. */
  method BuildAnnouncement(types: seq<string>) returns (buf: array<char>)
    requires types != []
    ensures fresh(buf) && buf[..] == Announcement(types) + ['\0']
  {
    buf := new char[0];
    for i := 0 to |types|
      invariant fresh(buf)
      invariant buf[..] == if i == 0 then "" else Announcement(types[..i]) + ","
    {
      AnnounceNext(types, i);
      buf := AppendEntry(buf, types[i]);
    }
    assert types[..|types|] == types;
    ghost var text := buf[..buf.Length - 1];
    buf[buf.Length - 1] := '\0';
    assert buf[..] == text + ['\0'];
  }

  lemma AnnounceNext(types: seq<string>, i: nat)
    requires i < |types|
    ensures Announcement(types[..i + 1])
         == (if i == 0 then "" else Announcement(types[..i]) + ",") + Entry(types[i])
  {
    assert types[..i + 1][..i] == types[..i];
  }

  // ---- Reading it back ----

  function Split(s: string): (pieces: seq<string>)
    ensures pieces != []
  {
    if s == "" then [""]
    else
      var pieces := Split(s[..|s| - 1]);
      var c := s[|s| - 1];
      if c == ',' then pieces + [""] else pieces[..|pieces| - 1] + [pieces[|pieces| - 1] + [c]]
  }

  function Commas(s: string): nat {
    if s == "" then 0 else Commas(s[..|s| - 1]) + if s[|s| - 1] == ',' then 1 else 0
  }

  function Entries(types: seq<string>): seq<string> {
    seq(|types|, i requires 0 <= i < |types| => Entry(types[i]))
  }

  lemma {:induction false} PiecesAreCounted(s: string)
    ensures |Split(s)| == Commas(s) + 1
    decreases |s|
  {
    if s != "" {
      PiecesAreCounted(s[..|s| - 1]);
    }
  }

  lemma {:induction false} CommasConcat(a: string, b: string)
    ensures Commas(a + b) == Commas(a) + Commas(b)
    decreases |b|
  {
    if b == "" {
      assert a + b == a;
    } else {
      CommasConcat(a, b[..|b| - 1]);
      assert (a + b)[..|a + b| - 1] == a + b[..|b| - 1];
    }
  }

  /** A character that is no comma lengthens the last piece. */
  lemma SplitOneMore(s: string, c: char)
    requires c != ','
    ensures var pieces := Split(s);
            Split(s + [c]) == pieces[..|pieces| - 1] + [pieces[|pieces| - 1] + [c]]
  {
    assert (s + [c])[..|s|] == s;
  }

  lemma {:induction false} SplitAfterComma(a: string, b: string)
    requires Commas(b) == 0
    ensures Split(a + "," + b) == Split(a) + [b]
    decreases |b|
  {
    if b == "" {
      assert a + "," + b == a + "," && (a + ",")[..|a|] == a;
    } else {
      var front, c := b[..|b| - 1], b[|b| - 1];
      SplitAfterComma(a, front);
      SplitOneMore(a + "," + front, c);
      assert front + [c] == b && a + "," + front + [c] == a + "," + b;
    }
  }

  lemma {:induction false} SplitWithoutComma(b: string)
    requires Commas(b) == 0
    ensures Split(b) == [b]
    decreases |b|
  {
    if b != "" {
      var front, c := b[..|b| - 1], b[|b| - 1];
      SplitWithoutComma(front);
      SplitOneMore(front, c);
      OnePiece(front, c);
      assert front + [c] == b;
    }
  }

  lemma OnePiece(piece: string, c: char)
    ensures var pieces := [piece];
            pieces[..|pieces| - 1] + [pieces[|pieces| - 1] + [c]] == [piece + [c]]
  {
  }

  lemma EntryCommas(mimeType: string)
    ensures Commas(Entry(mimeType)) == Commas(mimeType)
  {
    CommasConcat(PREFIX + mimeType, SUFFIX);
    CommasConcat(PREFIX, mimeType);
    NoCommas(PREFIX);
    NoCommas(SUFFIX);
  }

  lemma {:induction false} NoCommas(s: string)
    requires ',' !in s
    ensures Commas(s) == 0
    decreases |s|
  {
    if s != "" {
      NoCommas(s[..|s| - 1]);
    }
  }

  function TotalCommas(types: seq<string>): nat {
    if types == [] then 0 else TotalCommas(types[..|types| - 1]) + Commas(types[|types| - 1])
  }

  lemma {:induction false} AnnouncementCommas(types: seq<string>)
    requires types != []
    ensures Commas(Announcement(types)) == |types| - 1 + TotalCommas(types)
    decreases |types|
  {
    var n := |types| - 1;
    EntryCommas(types[n]);
    if n > 0 {
      AnnouncementCommas(types[..n]);
      CommasConcat(Announcement(types[..n]) + ",", Entry(types[n]));
      CommasConcat(Announcement(types[..n]), ",");
      assert ","[..0] == "";
    }
  }

  /** A control point that splits the announcement at its commas finds the entries
      again exactly if no type contains a comma. */
  lemma SplitFindsEntriesIff(types: seq<string>)
    requires types != []
    ensures Split(Announcement(types)) == Entries(types) <==> TotalCommas(types) == 0
  {
    AnnouncementCommas(types);
    PiecesAreCounted(Announcement(types));
    if TotalCommas(types) == 0 {
      SplitFindsEntries(types);
    }
  }

  lemma {:induction false} SplitFindsEntries(types: seq<string>)
    requires types != [] && TotalCommas(types) == 0
    ensures Split(Announcement(types)) == Entries(types)
    decreases |types|
  {
    var n := |types| - 1;
    EntryCommas(types[n]);
    if n == 0 {
      SplitWithoutComma(Entry(types[0]));
    } else {
      SplitFindsEntries(types[..n]);
      SplitAfterComma(Announcement(types[..n]), Entry(types[n]));
      assert Entries(types) == Entries(types[..n]) + [Entry(types[n])];
    }
  }

  // ---- The texts themselves ----

  /** What registering a type leaves in an empty registry, the latest first */
  lemma RegisteredNames(m: string)
    ensures AddedAll([], [m] + Aliases(m))
         == if m == "audio/mpeg" then
              ["audio/L16;rate=44100;channels=2", "audio/x-scpls", "audio/x-mpeg", "audio/mpeg"]
            else if m == "audio/x-alac" then ["audio/alac", "audio/x-alac"]
            else if m == "audio/x-aiff" then ["audio/aiff", "audio/x-aiff"]
            else if m == "audio/x-m4a" then ["audio/mp4", "audio/m4a", "audio/x-m4a"]
            else [m]
  {
    AddedOneByOne([], m, Aliases(m));
  }

  /** The output of the silan module registers a single type, which has no aliases. */
  lemma AudioIsAnnounced()
    ensures Announcement(AddedAll([], ["audio/*"] + Aliases("audio/*"))) == "http-get:*:audio/*:*"
  {
    RegisteredNames("audio/*");
  }
}
