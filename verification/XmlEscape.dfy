/** Escaping of text for XML, in two passes: the first only measures, so that the
    second fills a buffer of the right size. */
module XmlEscape {
  import opened Memory
  import opened Sequences

  // ---- What is written for a character, and for a text ----

  function EscapeChar(c: char, attribute: bool): string {
    if c == '<' then "&lt;"
    else if attribute && c == '"' then "%22"
    else if c == '>' then "&gt;"
    else if c == '&' then "&amp;"
    else [c]
  }

  function Escape(s: string, attribute: bool): string {
    if s == [] then [] else Escape(s[..|s| - 1], attribute) + EscapeChar(s[|s| - 1], attribute)
  }

  /** The pass that only finds the length */
  method Measure(str: string, attribute: bool) returns (length: nat)
    requires '\0' !in str
    ensures length == |Escape(str, attribute)|
  {
    length := 0;
    for i := 0 to |str|
      invariant length == |Escape(str[..i], attribute)|
    {
      PrefixFits(str, i, attribute);
      if str[i] == '<' {
        length := length + 4;
      } else if attribute && str[i] == '"' {
        length := length + 3;
      } else if str[i] == '>' {
        length := length + 4;
      } else if str[i] == '&' {
        length := length + 5;
      } else {
        length := length + 1;
      }
    }
    assert str[..|str|] == str;
  }

  /** One character is written at the place `len`. */
  method Put(c: char, target: array<char>, len: nat, attribute: bool) returns (length: nat)
    requires len + |EscapeChar(c, attribute)| <= target.Length
    modifies target
    ensures length == len + |EscapeChar(c, attribute)|
    ensures target[..length] == old(target[..len]) + EscapeChar(c, attribute)
    ensures target[length..] == old(target[len + |EscapeChar(c, attribute)|..])
  {
    if c == '<' {
      CopyTo(target, len, "&lt;");
      length := len + 4;
    } else if attribute && c == '"' {
      CopyTo(target, len, "%22");
      length := len + 3;
    } else if c == '>' {
      CopyTo(target, len, "&gt;");
      length := len + 4;
    } else if c == '&' {
      CopyTo(target, len, "&amp;");
      length := len + 5;
    } else {
      CopyTo(target, len, [c]);
      length := len + 1;
    }
  }

  /** The pass that writes */
  method Fill(str: string, target: array<char>, attribute: bool) returns (length: nat)
    requires '\0' !in str && |Escape(str, attribute)| < target.Length
    modifies target
    ensures length == |Escape(str, attribute)|
    ensures target[..length] == Escape(str, attribute) && target[length] == '\0'
    ensures target[length + 1..] == old(target[|Escape(str, attribute)| + 1..])
  {
    ghost var before := target[..];
    length := 0;
    for i := 0 to |str|
      invariant length == |Escape(str[..i], attribute)| < target.Length
      invariant target[..length] == Escape(str[..i], attribute)
      invariant target[length..] == before[length..]
    {
      PrefixFits(str, i, attribute);
      ghost var rest, n := target[length..], |EscapeChar(str[i], attribute)|;
      ghost var at := length;
      length := Put(str[i], target, length, attribute);
      assert before[at..][n..] == before[at + n..];
      assert target[length..] == rest[n..];
    }
    assert str[..|str|] == str;
    ghost var rest := target[length..];
    target[length] := '\0';
    assert target[length + 1..] == rest[1..];
  }

  /** Without a target only the length is found. */
  method XmlEscapeReal(str: string, target: array?<char>, attribute: bool) returns (length: nat)
    requires '\0' !in str
    requires target != null ==> |Escape(str, attribute)| < target.Length
    modifies target
    ensures length == |Escape(str, attribute)|
    ensures target != null ==>
              && target[..length] == Escape(str, attribute) && target[length] == '\0'
              && target[length + 1..] == old(target[|Escape(str, attribute)| + 1..])
  {
    if target != null {
      length := Fill(str, target, attribute);
    } else {
      length := Measure(str, attribute);
    }
  }

  /** The buffer is filled to its last cell, which is the terminating NUL. */
  method XmlEscape(str: string, attribute: bool) returns (out: array<char>)
    requires '\0' !in str
    ensures fresh(out) && out[..] == Escape(str, attribute) + ['\0']
  {
    var len := XmlEscapeReal(str, null, attribute);
    out := new char[len + 1];
    var _ := XmlEscapeReal(str, out, attribute);
  }

  lemma {:induction false} PrefixFits(s: string, i: nat, attribute: bool)
    requires i < |s|
    ensures Escape(s[..i + 1], attribute) == Escape(s[..i], attribute) + EscapeChar(s[i], attribute)
    ensures |Escape(s[..i + 1], attribute)| <= |Escape(s, attribute)|
    decreases |s|
  {
    assert s[..i + 1][..i] == s[..i];
    if i + 1 < |s| {
      PrefixFits(s[..|s| - 1], i, attribute);
      assert s[..|s| - 1][..i + 1] == s[..i + 1];
    } else {
      assert s[..i + 1] == s;
    }
  }

  // ---- What a reader of XML recovers ----

  /** The entities of section 2.4 of XML 1.0 that the escaper makes use of. */
  function Unescape(t: string): string {
    if t == [] then []
    else if "&lt;" <= t then "<" + Unescape(t[4..])
    else if "&gt;" <= t then ">" + Unescape(t[4..])
    else if "&amp;" <= t then "&" + Unescape(t[5..])
    else [t[0]] + Unescape(t[1..])
  }

  lemma {:induction false} EscapeConcat(a: string, b: string, attribute: bool)
    ensures Escape(a + b, attribute) == Escape(a, attribute) + Escape(b, attribute)
    decreases |b|
  {
    if b == [] {
      assert a + b == a;
    } else {
      var front, c := b[..|b| - 1], b[|b| - 1];
      assert (a + b)[..|a + b| - 1] == a + front;
      EscapeConcat(a, front, attribute);
      Regroup(Escape(a, attribute), Escape(front, attribute), EscapeChar(c, attribute));
    }
  }

  lemma EscapeOne(c: char, attribute: bool)
    ensures Escape([c], attribute) == EscapeChar(c, attribute)
  {
    assert [c][..0] == [] && Escape([], attribute) == [];
  }

  lemma EscapeInFront(c: char, s: string, attribute: bool)
    ensures Escape([c] + s, attribute) == EscapeChar(c, attribute) + Escape(s, attribute)
  {
    EscapeConcat([c], s, attribute);
    EscapeOne(c, attribute);
  }

  lemma UnescapeOne(c: char, t: string)
    ensures Unescape(EscapeChar(c, false) + t) == [c] + Unescape(t)
  {
    var e := EscapeChar(c, false);
    assert (e + t)[|e|..] == t;
    assert (e + t)[0] == e[0];
    if c in "<>&" {
      assert e <= e + t;
      assert (e + t)[1] == e[1];
    }
  }

  /** Escaped as content, every text is recovered. */
  lemma {:induction false} RoundTrip(s: string)
    ensures Unescape(Escape(s, false)) == s
    decreases |s|
  {
    if s != [] {
      assert s == [s[0]] + s[1..];
      EscapeInFront(s[0], s[1..], false);
      UnescapeOne(s[0], Escape(s[1..], false));
      RoundTrip(s[1..]);
    }
  }

  /** Different texts are escaped differently: the notified text determines the document. */
  lemma ContentIsInjective(a: string, b: string)
    ensures Escape(a, false) == Escape(b, false) <==> a == b
  {
    RoundTrip(a);
    RoundTrip(b);
  }

  lemma CharHasNoMarkup(c: char, attribute: bool)
    ensures '<' !in EscapeChar(c, attribute) && '>' !in EscapeChar(c, attribute)
    ensures attribute ==> '"' !in EscapeChar(c, attribute)
  {
  }

  /** No markup is left, and as an attribute no quotation mark. */
  lemma {:induction false} NoMarkup(s: string, attribute: bool)
    ensures '<' !in Escape(s, attribute) && '>' !in Escape(s, attribute)
    ensures attribute ==> '"' !in Escape(s, attribute)
    decreases |s|
  {
    if s != [] {
      NoMarkup(s[..|s| - 1], attribute);
      CharHasNoMarkup(s[|s| - 1], attribute);
    }
  }

  // ---- Attributes ----

  function QuotesReplaced(s: string): string {
    if s == [] then [] else QuotesReplaced(s[..|s| - 1]) + if s[|s| - 1] == '"' then "%22" else [s[|s| - 1]]
  }

  lemma {:induction false} ReplacingGrows(s: string)
    ensures |QuotesReplaced(s)| >= |s| && ('"' in s ==> |QuotesReplaced(s)| > |s|)
    ensures '"' !in s ==> QuotesReplaced(s) == s
    decreases |s|
  {
    if s != [] {
      ReplacingGrows(s[..|s| - 1]);
      assert s == s[..|s| - 1] + [s[|s| - 1]];
    }
  }

  /** As an attribute, a quotation mark is written as if it had been the text "%22". */
  lemma {:induction false} AttributeReplacesQuotes(s: string)
    ensures Escape(s, true) == Escape(QuotesReplaced(s), false)
    decreases |s|
  {
    if s != [] {
      var front, c := s[..|s| - 1], s[|s| - 1];
      AttributeReplacesQuotes(front);
      EscapeConcat(QuotesReplaced(front), if c == '"' then "%22" else [c], false);
      EscapedAlone(c);
    }
  }

  lemma EscapedAlone(c: char)
    ensures Escape(if c == '"' then "%22" else [c], false) == EscapeChar(c, true)
  {
    if c == '"' {
      EscapedQuote();
    } else {
      EscapeOne(c, false);
    }
  }

  lemma EscapedQuote()
    ensures Escape("%22", false) == "%22"
  {
    EscapeInFront('%', "22", false);
    EscapeInFront('2', "2", false);
    EscapeInFront('2', "", false);
    assert "%22" == ['%'] + "22" && "22" == ['2'] + "2" && "2" == ['2'] + "";
  }

  /** Escaped as an attribute, a text is recovered exactly if it has no quotation mark. */
  lemma AttributeRoundTripIff(s: string)
    ensures Unescape(Escape(s, true)) == s <==> '"' !in s
  {
    AttributeReplacesQuotes(s);
    ReplacingGrows(s);
    RoundTrip(QuotesReplaced(s));
  }

  /** Two texts are told apart as attributes unless they become the same when their
      quotation marks are replaced. */
  lemma AttributesClashIff(a: string, b: string)
    ensures Escape(a, true) == Escape(b, true) <==> QuotesReplaced(a) == QuotesReplaced(b)
  {
    AttributeReplacesQuotes(a);
    AttributeReplacesQuotes(b);
    ContentIsInjective(QuotesReplaced(a), QuotesReplaced(b));
  }

  /** A quotation mark and the text that stands for it are not told apart. */
  lemma QuotationMarkClashes()
    ensures Escape("\"", true) == Escape("%22", true)
  {
  }
}
