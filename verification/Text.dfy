/** Strings as sequences of runes: what the chunker needs of Go's strings and unicode packages, and how its token
    estimate behaves under splitting, joining and trimming. */
module Text {
  // strings.Split(s, "\n")
  function Lines(s: string): (ls: seq<string>)
    ensures |ls| > 0
  {
    if s == "" then [""]
    else
      var rest := Lines(s[1..]);
      if s[0] == '\n' then [""] + rest else [[s[0]] + rest[0]] + rest[1..]
  }

  // strings.Split(s, "\n\n"): separators are found from the left and do not overlap.
  function Paragraphs(s: string): (ps: seq<string>)
    ensures |ps| > 0
    decreases |s|
  {
    if s == "" then [""]
    else if |s| >= 2 && s[0] == '\n' && s[1] == '\n' then [""] + Paragraphs(s[2..])
    else
      var rest := Paragraphs(s[1..]);
      [[s[0]] + rest[0]] + rest[1..]
  }

  // strings.Join
  function Join(parts: seq<string>, sep: string): string {
    if parts == [] then "" else if |parts| == 1 then parts[0] else parts[0] + sep + Join(parts[1..], sep)
  }

  // strings.ReplaceAll(s, "\r\n", "\n")
  function Unix(s: string): string
    decreases |s|
  {
    if s == "" then ""
    else if |s| >= 2 && s[0] == '\r' && s[1] == '\n' then "\n" + Unix(s[2..])
    else [s[0]] + Unix(s[1..])
  }

  predicate NewlineFree(s: string) {
    '\n' !in s
  }

  lemma {:induction false} LinesNewlineFree(s: string)
    ensures forall i :: 0 <= i < |Lines(s)| ==> NewlineFree(Lines(s)[i])
  {
    if s != "" {
      LinesNewlineFree(s[1..]);
    }
  }

  /** Joining what was split gives the string back. */
  lemma {:induction false} LinesJoin(s: string)
    ensures Join(Lines(s), "\n") == s
  {
    if s != "" {
      LinesJoin(s[1..]);
      var rest := Lines(s[1..]);
      if s[0] == '\n' {
        assert Lines(s)[1..] == rest;
      } else {
        assert Lines(s)[1..] == rest[1..];
      }
    }
  }

  lemma JoinFront(c: char, parts: seq<string>, sep: string)
    requires parts != []
    ensures Join([[c] + parts[0]] + parts[1..], sep) == [c] + Join(parts, sep)
    ensures Join([""] + parts, sep) == sep + Join(parts, sep)
  {
    var front := [[c] + parts[0]] + parts[1..];
    assert front[1..] == parts[1..];
    assert ([""] + parts)[1..] == parts;
    assert "" + sep == sep;
  }

  lemma {:induction false} ParagraphsJoin(s: string)
    ensures Join(Paragraphs(s), "\n\n") == s
    decreases |s|
  {
    if s == "" {
    } else if |s| >= 2 && s[0] == '\n' && s[1] == '\n' {
      ParagraphsJoin(s[2..]);
      JoinFront(s[0], Paragraphs(s[2..]), "\n\n");
      assert s == "\n\n" + s[2..];
    } else {
      ParagraphsJoin(s[1..]);
      JoinFront(s[0], Paragraphs(s[1..]), "\n\n");
      assert s == [s[0]] + s[1..];
    }
  }

  predicate BlankLineAt(s: string, i: nat) {
    i + 1 < |s| && s[i] == '\n' && s[i + 1] == '\n'
  }

  // No separator is left inside, and none begins at the end of a paragraph that has one behind it.
  ghost predicate CutFromLeft(ps: seq<string>) {
    && (forall k, i: nat :: 0 <= k < |ps| ==> !BlankLineAt(ps[k], i))
    && (forall k :: 0 <= k < |ps| - 1 && ps[k] != "" ==> ps[k][|ps[k]| - 1] != '\n')
  }

  // The first paragraph begins as the text does, up to a separator.
  lemma {:induction false} ParagraphBegins(s: string)
    ensures Paragraphs(s)[0] == "" <==> s == "" || BlankLineAt(s, 0)
    ensures Paragraphs(s)[0] != "" ==> Paragraphs(s)[0][0] == s[0]
    ensures |Paragraphs(s)| > 1 ==> |s| >= 2
  {
    if s != "" && !BlankLineAt(s, 0) && |s| > 1 {
      ParagraphBegins(s[1..]);
    }
  }

  /** Every separator is cut, each blank line at the first place it can be. */
  lemma {:induction false} ParagraphsCut(s: string)
    ensures CutFromLeft(Paragraphs(s))
    decreases |s|
  {
    if s == "" {
    } else if BlankLineAt(s, 0) {
      ParagraphsCut(s[2..]);
    } else {
      var rest, ps := Paragraphs(s[1..]), Paragraphs(s);
      ParagraphsCut(s[1..]);
      ParagraphBegins(s[1..]);
      assert ps[0] == [s[0]] + rest[0] && forall k :: 0 < k < |ps| ==> ps[k] == rest[k];
      forall k, i: nat | 0 <= k < |ps|
        ensures !BlankLineAt(ps[k], i)
      {
        if k == 0 && i > 0 {
          assert !BlankLineAt(rest[0], i - 1);
        } else if k > 0 {
          assert !BlankLineAt(rest[k], i);
        }
      }
    }
  }

  lemma {:induction false} UnixPlain(s: string)
    requires forall i :: 0 <= i < |s| - 1 ==> !(s[i] == '\r' && s[i + 1] == '\n')
    ensures Unix(s) == s
    decreases |s|
  {
    if s != "" {
      assert forall i :: 0 <= i < |s[1..]| ==> s[1..][i] == s[i + 1];
      UnixPlain(s[1..]);
    }
  }

  lemma {:induction false} UnixConcat(x: string, y: string)
    requires y != "" && y[0] != '\n'
    ensures Unix(x + y) == Unix(x) + Unix(y)
    decreases |x|
  {
    if x == "" {
      assert x + y == y;
    } else if |x| >= 2 && x[0] == '\r' && x[1] == '\n' {
      assert (x + y)[2..] == x[2..] + y;
      UnixConcat(x[2..], y);
      Regroup("\n", Unix(x[2..]), Unix(y));
    } else {
      var s := x + y;
      assert s[1..] == x[1..] + y && s[0] == x[0] && s[1] == if |x| > 1 then x[1] else y[0];
      UnixConcat(x[1..], y);
      calc {
        Unix(s);
        [x[0]] + Unix(x[1..] + y);
        [x[0]] + (Unix(x[1..]) + Unix(y));
        { Regroup([x[0]], Unix(x[1..]), Unix(y)); }
        ([x[0]] + Unix(x[1..])) + Unix(y);
        Unix(x) + Unix(y);
      }
    }
  }

  /** Each carriage return with a line feed behind it is dropped, wherever it stands, and a text without such a pair
      stays as it is. */
  lemma UnixExactly(x: string, y: string)
    ensures Unix(x + ("\r\n" + y)) == Unix(x) + ("\n" + Unix(y))
    ensures (forall i :: 0 <= i < |x| - 1 ==> !(x[i] == '\r' && x[i + 1] == '\n')) ==> Unix(x) == x
  {
    UnixConcat(x, "\r\n" + y);
    assert ("\r\n" + y)[2..] == y;
    if forall i :: 0 <= i < |x| - 1 ==> !(x[i] == '\r' && x[i + 1] == '\n') {
      UnixPlain(x);
    }
  }

  lemma Regroup(x: string, y: string, z: string)
    ensures x + y + z == x + (y + z)
  {
  }

  function Max(a: nat, b: nat): nat { if a >= b then a else b }

  // The rune classes. They are left open but for what Proper says of them.
  datatype Alphabet = Alphabet(space: char -> bool, han: char -> bool, word: char -> bool)
  {
    ghost predicate Proper() {
      && space('\n') && space('\r') && space(' ')
      && forall c :: space(c) ==> !han(c) && !word(c)
    }

    // The characters that are not white space.
    function Ink(s: string): string {
      if s == "" then "" else (if space(s[0]) then "" else [s[0]]) + Ink(s[1..])
    }

    function InkOf(parts: seq<string>): string {
      if parts == [] then "" else Ink(parts[0]) + InkOf(parts[1..])
    }

    function TrimLeft(s: string): string {
      if s == "" || !space(s[0]) then s else TrimLeft(s[1..])
    }

    function TrimRight(s: string): string {
      if s == "" || !space(s[|s| - 1]) then s else TrimRight(s[..|s| - 1])
    }

    // strings.TrimSpace
    function Trim(s: string): string {
      TrimRight(TrimLeft(s))
    }

    // One rune of estimateTokens: what it adds, and whether a word goes on behind it.
    function Adds(c: char, inWord: bool): nat {
      if han(c) || (word(c) && !inWord) then 1 else 0
    }

    function Within(c: char): bool {
      !han(c) && word(c)
    }

    function TokensFrom(s: string, inWord: bool): nat {
      if s == "" then 0 else Adds(s[0], inWord) + TokensFrom(s[1..], Within(s[0]))
    }

    // estimateTokens
    function Tokens(s: string): nat { TokensFrom(s, false) }

    function TokensOf(parts: seq<string>): nat {
      if parts == [] then 0 else Tokens(parts[0]) + TokensOf(parts[1..])
    }

    // The largest token estimate of a line, when n tokens of the first line are counted already.
    function PeakFrom(s: string, inWord: bool, n: nat): nat {
      if s == "" then n
      else if s[0] == '\n' then Max(n, PeakFrom(s[1..], false, 0))
      else PeakFrom(s[1..], Within(s[0]), n + Adds(s[0], inWord))
    }

    function Peak(s: string): nat { PeakFrom(s, false, 0) }

    // ---- ink ----

    lemma {:induction false} InkConcat(x: string, y: string)
      ensures Ink(x + y) == Ink(x) + Ink(y)
    {
      if x == "" {
        assert x + y == y;
      } else {
        assert (x + y)[1..] == x[1..] + y;
        InkConcat(x[1..], y);
      }
    }

    lemma {:induction false} InkOfConcat(x: seq<string>, y: seq<string>)
      ensures InkOf(x + y) == InkOf(x) + InkOf(y)
    {
      if x == [] {
        assert x + y == y;
      } else {
        assert (x + y)[1..] == x[1..] + y;
        InkOfConcat(x[1..], y);
      }
    }

    lemma InkOfPush(x: seq<string>, last: string)
      ensures InkOf(x + [last]) == InkOf(x) + Ink(last)
    {
      InkOfConcat(x, [last]);
      assert InkOf([last]) == Ink(last) + InkOf([]);
    }

    lemma {:induction false} InkJoin(parts: seq<string>, sep: string)
      requires Ink(sep) == ""
      ensures Ink(Join(parts, sep)) == InkOf(parts)
    {
      if |parts| > 1 {
        InkConcat(parts[0] + sep, Join(parts[1..], sep));
        InkConcat(parts[0], sep);
        InkJoin(parts[1..], sep);
      } else if |parts| == 1 {
        assert InkOf(parts[1..]) == "";
      }
    }

    lemma NewlinesHaveNoInk()
      requires Proper()
      ensures Ink("\n") == "" && Ink("\n\n") == ""
    {
      assert "\n\n"[1..] == "\n";
    }

    lemma {:induction false} InkTrimLeft(s: string)
      ensures Ink(TrimLeft(s)) == Ink(s)
      ensures TrimLeft(s) != "" ==> !space(TrimLeft(s)[0])
    {
      if s != "" && space(s[0]) {
        InkTrimLeft(s[1..]);
      }
    }

    lemma {:induction false} InkTrimRight(s: string)
      ensures Ink(TrimRight(s)) == Ink(s)
      ensures TrimRight(s) != "" ==> !space(TrimRight(s)[|TrimRight(s)| - 1])
    {
      if s != "" && space(s[|s| - 1]) {
        InkTrimRight(s[..|s| - 1]);
        assert s == s[..|s| - 1] + [s[|s| - 1]];
        InkConcat(s[..|s| - 1], [s[|s| - 1]]);
      }
    }

    lemma {:induction false} InkAtEnd(s: string)
      requires s != "" && !space(s[|s| - 1])
      ensures Ink(s) != ""
    {
      InkConcat(s[..|s| - 1], [s[|s| - 1]]);
      assert s == s[..|s| - 1] + [s[|s| - 1]];
    }

    lemma InkTrim(s: string)
      ensures Ink(Trim(s)) == Ink(s)
      ensures Trim(s) == "" <==> Ink(s) == ""
    {
      InkTrimLeft(s);
      InkTrimRight(TrimLeft(s));
      if Trim(s) != "" {
        InkAtEnd(Trim(s));
      }
    }

    lemma {:induction false} InkUnix(s: string)
      requires Proper()
      ensures Ink(Unix(s)) == Ink(s)
      decreases |s|
    {
      if s == "" {
      } else if |s| >= 2 && s[0] == '\r' && s[1] == '\n' {
        InkUnix(s[2..]);
        assert s[1..][1..] == s[2..];
      } else {
        InkUnix(s[1..]);
      }
    }

    lemma {:induction false} TokensNeedInk(s: string, inWord: bool)
      requires Proper() && Ink(s) == ""
      ensures TokensFrom(s, inWord) == 0
    {
      if s != "" {
        TokensNeedInk(s[1..], Within(s[0]));
      }
    }

    // ---- tokens ----

    lemma {:induction false} TokensAcrossNewline(x: string, y: string, inWord: bool)
      requires Proper()
      ensures TokensFrom(x + "\n" + y, inWord) == TokensFrom(x, inWord) + Tokens(y)
    {
      var z := x + "\n" + y;
      if x == "" {
        assert z[1..] == y;
      } else {
        assert z[1..] == x[1..] + "\n" + y;
        TokensAcrossNewline(x[1..], y, Within(x[0]));
      }
    }

    /** The estimate is additive across joins with newlines. */
    lemma {:induction false} TokensJoin(parts: seq<string>, sep: string)
      requires Proper() && (sep == "\n" || sep == "\n\n")
      ensures Tokens(Join(parts, sep)) == TokensOf(parts)
    {
      if |parts| > 1 {
        var rest := Join(parts[1..], sep);
        TokensJoin(parts[1..], sep);
        if sep == "\n" {
          TokensAcrossNewline(parts[0], rest, false);
        } else {
          assert parts[0] + sep + rest == parts[0] + "\n" + ("\n" + rest);
          TokensAcrossNewline(parts[0], "\n" + rest, false);
          assert "" + "\n" + rest == "\n" + rest;
          TokensAcrossNewline("", rest, false);
        }
      } else if |parts| == 1 {
        assert TokensOf(parts[1..]) == 0;
      }
    }

    lemma {:induction false} TokensOfConcat(x: seq<string>, y: seq<string>)
      ensures TokensOf(x + y) == TokensOf(x) + TokensOf(y)
    {
      if x == [] {
        assert x + y == y;
      } else {
        assert (x + y)[1..] == x[1..] + y;
        TokensOfConcat(x[1..], y);
      }
    }

    lemma TokensOfPush(x: seq<string>, last: string)
      ensures TokensOf(x + [last]) == TokensOf(x) + Tokens(last)
    {
      TokensOfConcat(x, [last]);
      assert TokensOf([last]) == Tokens(last) + TokensOf([]);
    }

    lemma {:induction false} TokensDropLast(s: string, c: char, inWord: bool)
      requires Proper() && space(c)
      ensures TokensFrom(s + [c], inWord) == TokensFrom(s, inWord)
    {
      if s == "" {
        assert (s + [c])[1..] == "";
      } else {
        assert (s + [c])[1..] == s[1..] + [c];
        TokensDropLast(s[1..], c, Within(s[0]));
      }
    }

    /** The estimate does not see surrounding white space. */
    lemma TokensTrim(s: string)
      requires Proper()
      ensures Tokens(Trim(s)) == Tokens(s)
    {
      TokensTrimLeft(s);
      TokensTrimRight(TrimLeft(s));
    }

    lemma {:induction false} TokensTrimLeft(s: string)
      requires Proper()
      ensures Tokens(TrimLeft(s)) == Tokens(s)
    {
      if s != "" && space(s[0]) {
        TokensTrimLeft(s[1..]);
      }
    }

    lemma {:induction false} TokensTrimRight(s: string)
      requires Proper()
      ensures Tokens(TrimRight(s)) == Tokens(s)
    {
      if s != "" && space(s[|s| - 1]) {
        var init := s[..|s| - 1];
        TokensTrimRight(init);
        assert s == init + [s[|s| - 1]];
        TokensDropLast(init, s[|s| - 1], false);
      }
    }

    // ---- the largest line ----

    lemma {:induction false} PeakOfLine(s: string, inWord: bool, n: nat)
      requires NewlineFree(s)
      ensures PeakFrom(s, inWord, n) == n + TokensFrom(s, inWord)
    {
      if s != "" {
        PeakOfLine(s[1..], Within(s[0]), n + Adds(s[0], inWord));
      }
    }

    lemma {:induction false} PeakAcrossNewline(x: string, y: string, inWord: bool, n: nat)
      ensures PeakFrom(x + "\n" + y, inWord, n) == Max(PeakFrom(x, inWord, n), Peak(y))
    {
      var z := x + "\n" + y;
      if x == "" {
        assert z[1..] == y;
      } else {
        assert z[1..] == x[1..] + "\n" + y;
        if x[0] == '\n' {
          PeakAcrossNewline(x[1..], y, false, 0);
        } else {
          PeakAcrossNewline(x[1..], y, Within(x[0]), n + Adds(x[0], inWord));
        }
      }
    }

    lemma {:induction false} PeakOfJoin(parts: seq<string>, sep: string, limit: nat)
      requires sep == "\n" || sep == "\n\n"
      ensures Peak(Join(parts, sep)) <= limit <==> forall i :: 0 <= i < |parts| ==> Peak(parts[i]) <= limit
    {
      if |parts| > 1 {
        var rest := Join(parts[1..], sep);
        PeakOfJoin(parts[1..], sep, limit);
        if sep == "\n" {
          PeakAcrossNewline(parts[0], rest, false, 0);
        } else {
          assert parts[0] + sep + rest == parts[0] + "\n" + ("\n" + rest);
          PeakAcrossNewline(parts[0], "\n" + rest, false, 0);
        }
        assert forall i :: 0 < i < |parts| ==> parts[i] == parts[1..][i - 1];
      }
    }

    lemma {:induction false} PeakDropLast(s: string, c: char, inWord: bool, n: nat)
      requires Proper() && space(c)
      ensures PeakFrom(s, inWord, n) <= PeakFrom(s + [c], inWord, n)
    {
      if s == "" {
        assert (s + [c])[1..] == "";
      } else {
        assert (s + [c])[1..] == s[1..] + [c];
        if s[0] == '\n' {
          PeakDropLast(s[1..], c, false, 0);
        } else {
          PeakDropLast(s[1..], c, Within(s[0]), n + Adds(s[0], inWord));
        }
      }
    }

    lemma {:induction false} PeakTrimLeft(s: string)
      requires Proper()
      ensures Peak(TrimLeft(s)) <= Peak(s)
    {
      if s != "" && space(s[0]) {
        PeakTrimLeft(s[1..]);
      }
    }

    lemma {:induction false} PeakTrimRight(s: string)
      requires Proper()
      ensures Peak(TrimRight(s)) <= Peak(s)
    {
      if s != "" && space(s[|s| - 1]) {
        var init := s[..|s| - 1];
        PeakTrimRight(init);
        assert s == init + [s[|s| - 1]];
        PeakDropLast(init, s[|s| - 1], false, 0);
      }
    }

    lemma PeakTrim(s: string)
      requires Proper()
      ensures Peak(Trim(s)) <= Peak(s)
    {
      PeakTrimLeft(s);
      PeakTrimRight(TrimLeft(s));
    }
  }
}
