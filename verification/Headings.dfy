/** Which lines the Markdown chunker takes for headings, and under which heading a chunk stands
    (internal/service/markdown_chunker.go). */
module Headings {
  import opened Text
  import opened Chunker

  // ---- the lines that are headings ----

  predicate AllSpace(a: Alphabet, s: string) {
    forall i :: 0 <= i < |s| ==> a.space(s[i])
  }

  // Not empty, and no white space at either end.
  predicate Bare(a: Alphabet, s: string) {
    s != "" && !a.space(s[0]) && !a.space(s[|s| - 1])
  }

  function Marks(n: nat): string {
    if n == 0 then "" else "#" + Marks(n - 1)
  }

  // An ATX heading as the chunker reads it: white space, up to six hashes, a gap that begins with a space, the title.
  predicate Spells(a: Alphabet, line: string, level: nat, title: string, lead: string, gap: string, tail: string) {
    && 1 <= level <= 6
    && line == lead + (Marks(level) + (gap + title)) + tail
    && AllSpace(a, lead) && AllSpace(a, gap) && AllSpace(a, tail)
    && gap != "" && gap[0] == ' ' && Bare(a, title)
  }

  lemma {:induction false} TrimLeftSplit(a: Alphabet, s: string) returns (lead: string)
    ensures AllSpace(a, lead) && s == lead + a.TrimLeft(s)
  {
    lead := "";
    if s != "" && a.space(s[0]) {
      var rest := TrimLeftSplit(a, s[1..]);
      lead := [s[0]] + rest;
      Regroup([s[0]], rest, a.TrimLeft(s[1..]));
      assert s == [s[0]] + s[1..];
    }
  }

  lemma {:induction false} TrimRightSplit(a: Alphabet, s: string) returns (tail: string)
    ensures AllSpace(a, tail) && s == a.TrimRight(s) + tail
  {
    tail := "";
    if s != "" && a.space(s[|s| - 1]) {
      var rest := TrimRightSplit(a, s[..|s| - 1]);
      tail := rest + [s[|s| - 1]];
      Regroup(a.TrimRight(s), rest, [s[|s| - 1]]);
      assert s == s[..|s| - 1] + [s[|s| - 1]];
    }
  }

  lemma TrimSplit(a: Alphabet, s: string) returns (lead: string, tail: string)
    ensures AllSpace(a, lead) && AllSpace(a, tail) && s == lead + a.Trim(s) + tail
    ensures a.Trim(s) != "" ==> Bare(a, a.Trim(s))
  {
    var left := a.TrimLeft(s);
    lead := TrimLeftSplit(a, s);
    tail := TrimRightSplit(a, left);
    a.InkTrimLeft(s);
    a.InkTrimRight(left);
    Regroup(lead, a.Trim(s), tail);
    if a.Trim(s) != "" {
      assert left[0] == a.Trim(s)[0];
    }
  }

  lemma {:induction false} TrimLeftDrops(a: Alphabet, lead: string, s: string)
    requires AllSpace(a, lead) && s != "" && !a.space(s[0])
    ensures a.TrimLeft(lead + s) == s
  {
    if lead == "" {
      assert lead + s == s;
    } else {
      assert (lead + s)[1..] == lead[1..] + s;
      TrimLeftDrops(a, lead[1..], s);
    }
  }

  lemma {:induction false} TrimRightDrops(a: Alphabet, s: string, tail: string)
    requires AllSpace(a, tail) && s != "" && !a.space(s[|s| - 1])
    ensures a.TrimRight(s + tail) == s
  {
    if tail == "" {
      assert s + tail == s;
    } else {
      assert (s + tail)[..|s + tail| - 1] == s + tail[..|tail| - 1];
      TrimRightDrops(a, s, tail[..|tail| - 1]);
    }
  }

  lemma TrimExact(a: Alphabet, lead: string, core: string, tail: string)
    requires AllSpace(a, lead) && AllSpace(a, tail) && Bare(a, core)
    ensures a.Trim(lead + core + tail) == core
  {
    Regroup(lead, core, tail);
    TrimLeftDrops(a, lead, core + tail);
    TrimRightDrops(a, core, tail);
  }

  lemma {:induction false} HashesExact(n: nat, rest: string)
    requires rest == "" || rest[0] != '#'
    ensures Hashes(Marks(n) + rest) == n && |Marks(n)| == n && (Marks(n) + rest)[n..] == rest
    ensures n > 0 ==> Marks(n)[0] == '#'
  {
    if n == 0 {
      assert Marks(0) + rest == rest;
    } else {
      HashesExact(n - 1, rest);
      assert (Marks(n) + rest)[1..] == Marks(n - 1) + rest;
      assert (Marks(n) + rest)[n..] == (Marks(n - 1) + rest)[n - 1..];
    }
  }

  lemma {:induction false} HashesSplit(s: string)
    ensures s == Marks(Hashes(s)) + s[Hashes(s)..]
  {
    if s != "" && s[0] == '#' {
      HashesSplit(s[1..]);
      var n := Hashes(s);
      assert s[n..] == s[1..][n - 1..];
      Regroup("#", Marks(n - 1), s[n..]);
      assert s == "#" + s[1..];
    } else {
      assert Marks(0) + s[0..] == s;
    }
  }

  lemma SpelledIsHeading(a: Alphabet, line: string, level: nat, title: string, lead: string, gap: string, tail: string)
    requires a.Proper() && !a.space('#') && Spells(a, line, level, title, lead, gap, tail)
    ensures HeadingOf(a, line) == Heading(level, title)
  {
    var rest := gap + title;
    var core := Marks(level) + rest;
    HashesExact(level, rest);
    assert core[|core| - 1] == title[|title| - 1] && core[0] == '#';
    TrimExact(a, lead, core, tail);
    assert gap + title + "" == rest;
    TrimExact(a, gap, title, "");
  }

  lemma HeadingIsSpelled(a: Alphabet, line: string) returns (lead: string, gap: string, tail: string)
    requires a.Proper() && HeadingOf(a, line).Heading?
    ensures Spells(a, line, HeadingOf(a, line).level, HeadingOf(a, line).title, lead, gap, tail)
  {
    var trimmed := a.Trim(line);
    var level := Hashes(trimmed);
    var rest := trimmed[level..];
    lead, tail := TrimSplit(a, line);
    HashesSplit(trimmed);
    var after;
    gap, after := TrimSplit(a, rest);
    var title := a.Trim(rest);
    assert rest == gap + title + after;
    assert rest[|rest| - 1] == trimmed[|trimmed| - 1];
    assert after == "" && gap != "";
    assert gap + title + "" == gap + title;
  }

  /** A line is a heading of this level and title if and only if it is spelled as one. */
  lemma HeadingExactly(a: Alphabet, line: string, level: nat, title: string)
    requires a.Proper() && !a.space('#')
    ensures HeadingOf(a, line) == Heading(level, title)
       <==> exists lead, gap, tail :: Spells(a, line, level, title, lead, gap, tail)
  {
    if HeadingOf(a, line) == Heading(level, title) {
      var lead, gap, tail := HeadingIsSpelled(a, line);
    }
    if lead, gap, tail :| Spells(a, line, level, title, lead, gap, tail) {
      SpelledIsHeading(a, line, level, title, lead, gap, tail);
    }
  }

  // ---- the section a chunk comes from ----

  // The headings in force after the first n lines.
  function PathAt(a: Alphabet, lines: seq<string>, n: nat): seq<string>
    requires n <= |lines|
  {
    if n == 0 then []
    else
      match HeadingOf(a, lines[n - 1])
      case NoHeading => PathAt(a, lines, n - 1)
      case Heading(level, title) => Enter(PathAt(a, lines, n - 1), level, title)
  }

  // No headings among the lines from lo to hi.
  predicate Plain(a: Alphabet, lines: seq<string>, lo: nat, hi: nat)
    requires hi <= |lines|
  {
    forall i :: lo <= i < hi ==> HeadingOf(a, lines[i]).NoHeading?
  }

  // The only heading of the section, with nothing but blank lines before it.
  predicate Led(a: Alphabet, lines: seq<string>, b: nat, h: nat, n: nat) {
    && b <= h < n <= |lines| && HeadingOf(a, lines[h]).Heading?
    && (forall i :: b <= i < h ==> a.Ink(lines[i]) == "") && Plain(a, lines, h + 1, n)
  }

  // Lines b to n are what was read since the last section with ink: under one heading, or before the first.
  ghost predicate Open(a: Alphabet, lines: seq<string>, b: nat, n: nat) {
    b <= n <= |lines| && ((b == 0 && Plain(a, lines, 0, n)) || exists h: nat :: Led(a, lines, b, h, n))
  }

  ghost predicate OfSection(a: Alphabet, lines: seq<string>, l: Limits, c: Chunk, b: nat, j: nat) {
    && b < j && Open(a, lines, b, j) && (j == |lines| || HeadingOf(a, lines[j]).Heading?)
    && c.path == PathAt(a, lines, j)
    && c.text in SplitParts(a, a.Trim(Join(lines[b..j], "\n")), l)
  }

  ghost predicate Sourced(a: Alphabet, lines: seq<string>, l: Limits, c: Chunk) {
    exists b: nat, j: nat :: OfSection(a, lines, l, c, b, j)
  }

  ghost predicate ReadUpTo(a: Alphabet, lines: seq<string>, l: Limits, n: nat, d: Document, b: nat) {
    && Open(a, lines, b, n) && d.section == lines[b..n] && d.path == PathAt(a, lines, n)
    && forall c :: c in d.chunks ==> Sourced(a, lines, l, c)
  }

  lemma FlushSourced(a: Alphabet, lines: seq<string>, l: Limits, n: nat, d: Document, b: nat)
    requires ReadUpTo(a, lines, l, n, d, b) && (n == |lines| || HeadingOf(a, lines[n]).Heading?)
    ensures forall c :: c in Flush(a, d, l).chunks ==> Sourced(a, lines, l, c)
  {
    var text := a.Trim(Join(d.section, "\n"));
    if text != "" {
      var parts := SplitParts(a, text, l);
      forall c | c in Headed(parts, d.path)
        ensures Sourced(a, lines, l, c)
      {
        assert b < n;
        assert OfSection(a, lines, l, c, b, n);
      }
    }
  }

  lemma {:induction false} EachBlank(a: Alphabet, parts: seq<string>)
    requires a.InkOf(parts) == ""
    ensures forall i :: 0 <= i < |parts| ==> a.Ink(parts[i]) == ""
  {
    if parts != [] {
      EachBlank(a, parts[1..]);
      assert forall i :: 0 < i < |parts| ==> parts[i] == parts[1..][i - 1];
    }
  }

  lemma BlankSection(a: Alphabet, section: seq<string>)
    requires a.Proper() && a.Trim(Join(section, "\n")) == ""
    ensures forall i :: 0 <= i < |section| ==> a.Ink(section[i]) == ""
  {
    a.InkTrim(Join(section, "\n"));
    a.NewlinesHaveNoInk();
    a.InkJoin(section, "\n");
    EachBlank(a, section);
  }

  lemma PlainLine(a: Alphabet, lines: seq<string>, n: nat, b: nat)
    requires n < |lines| && Open(a, lines, b, n) && HeadingOf(a, lines[n]).NoHeading?
    ensures Open(a, lines, b, n + 1)
  {
    if h: nat :| Led(a, lines, b, h, n) {
      assert Led(a, lines, b, h, n + 1);
    } else {
      assert b == 0 && Plain(a, lines, 0, n + 1);
    }
  }

  // A heading opens a section: with the blank lines before it, or alone.
  lemma OpensSection(a: Alphabet, lines: seq<string>, b: nat, n: nat)
    requires b <= n < |lines| && HeadingOf(a, lines[n]).Heading? && forall i :: b <= i < n ==> a.Ink(lines[i]) == ""
    ensures Open(a, lines, b, n + 1)
  {
    assert Led(a, lines, b, n, n + 1);
  }

  lemma BlankSlice(a: Alphabet, lines: seq<string>, b: nat, n: nat)
    requires a.Proper() && b <= n <= |lines| && a.Trim(Join(lines[b..n], "\n")) == ""
    ensures forall i :: b <= i < n ==> a.Ink(lines[i]) == ""
  {
    BlankSection(a, lines[b..n]);
    forall i | b <= i < n
      ensures a.Ink(lines[i]) == ""
    {
      assert lines[b..n][i - b] == lines[i];
    }
  }

  lemma HeadingLine(a: Alphabet, lines: seq<string>, l: Limits, n: nat, d: Document, b: nat) returns (from: nat)
    requires a.Proper() && b <= n < |lines| && d.section == lines[b..n] && HeadingOf(a, lines[n]).Heading?
    ensures Open(a, lines, from, n + 1) && Flush(a, d, l).section + [lines[n]] == lines[from..n + 1]
  {
    if a.Trim(Join(d.section, "\n")) == "" {
      from := b;
      BlankSlice(a, lines, b, n);
      OpensSection(a, lines, b, n);
      assert lines[b..n] + [lines[n]] == lines[b..n + 1];
    } else {
      from := n;
      OpensSection(a, lines, n, n);
      assert [lines[n]] == lines[n..n + 1];
    }
  }

  lemma ReadPlain(a: Alphabet, lines: seq<string>, l: Limits, n: nat, d: Document, b: nat)
    requires n < |lines| && ReadUpTo(a, lines, l, n, d, b) && HeadingOf(a, lines[n]).NoHeading?
    ensures ReadUpTo(a, lines, l, n + 1, AddLine(a, d, lines[n], l), b)
  {
    PlainLine(a, lines, n, b);
    assert lines[b..n + 1] == lines[b..n] + [lines[n]];
  }

  lemma ReadHeading(a: Alphabet, lines: seq<string>, l: Limits, n: nat, d: Document, before: nat) returns (b: nat)
    requires a.Proper() && n < |lines| && ReadUpTo(a, lines, l, n, d, before) && HeadingOf(a, lines[n]).Heading?
    ensures ReadUpTo(a, lines, l, n + 1, AddLine(a, d, lines[n], l), b)
  {
    FlushSourced(a, lines, l, n, d, before);
    b := HeadingLine(a, lines, l, n, d, before);
    var e := AddLine(a, d, lines[n], l);
    assert e.section == lines[b..n + 1] && e.chunks == Flush(a, d, l).chunks;
    assert e.path == PathAt(a, lines, n + 1);
  }

  lemma ReadOn(a: Alphabet, lines: seq<string>, l: Limits, n: nat, d: Document, before: nat) returns (b: nat)
    requires a.Proper() && n < |lines| && ReadUpTo(a, lines, l, n, d, before)
    ensures ReadUpTo(a, lines, l, n + 1, AddLine(a, d, lines[n], l), b)
  {
    if HeadingOf(a, lines[n]).NoHeading? {
      b := before;
      ReadPlain(a, lines, l, n, d, before);
    } else {
      b := ReadHeading(a, lines, l, n, d, before);
    }
  }

  lemma ReadStep(a: Alphabet, lines: seq<string>, l: Limits, n: nat)
    requires n < |lines|
    ensures Read(a, lines[..n + 1], l) == AddLine(a, Read(a, lines[..n], l), lines[n], l)
  {
    assert lines[..n + 1][..n] == lines[..n];
  }

  lemma {:induction false} ReadSections(a: Alphabet, lines: seq<string>, l: Limits, n: nat) returns (b: nat)
    requires a.Proper() && n <= |lines|
    ensures ReadUpTo(a, lines, l, n, Read(a, lines[..n], l), b)
  {
    if n == 0 {
      b := 0;
      assert lines[..0] == [] && lines[0..0] == [] && Plain(a, lines, 0, 0);
    } else {
      var before := ReadSections(a, lines, l, n - 1);
      ReadStep(a, lines, l, n - 1);
      b := ReadOn(a, lines, l, n - 1, Read(a, lines[..n - 1], l), before);
    }
  }

  // In an open section the last heading in force is the one that leads it.
  lemma {:induction false} PathOfOpen(a: Alphabet, lines: seq<string>, b: nat, n: nat)
    requires n <= |lines|
    ensures Plain(a, lines, 0, n) ==> PathAt(a, lines, n) == []
    ensures forall h: nat :: Led(a, lines, b, h, n) ==>
              var path := PathAt(a, lines, n); path != [] && path[|path| - 1] == HeadingOf(a, lines[h]).title
    decreases n
  {
    if n > 0 {
      PathOfOpen(a, lines, b, n - 1);
      forall h: nat | Led(a, lines, b, h, n)
        ensures var path := PathAt(a, lines, n); path != [] && path[|path| - 1] == HeadingOf(a, lines[h]).title
      {
        if h < n - 1 {
          assert Led(a, lines, b, h, n - 1);
        }
      }
    }
  }

  // How many headings are in force after the first n lines.
  function Depth(a: Alphabet, lines: seq<string>, n: nat): nat
    requires n <= |lines|
  {
    if n == 0 then 0
    else
      match HeadingOf(a, lines[n - 1])
      case NoHeading => Depth(a, lines, n - 1)
      case Heading(level, _) =>
        var before := Depth(a, lines, n - 1);
        if before < level then before + 1 else level
  }

  // The heading in line h is at this depth, and every later one up to line n is deeper.
  predicate InForce(a: Alphabet, lines: seq<string>, h: nat, depth: nat, n: nat) {
    && h < n <= |lines| && HeadingOf(a, lines[h]).Heading? && Depth(a, lines, h + 1) == depth
    && forall j :: h < j < n && HeadingOf(a, lines[j]).Heading? ==> Depth(a, lines, j + 1) > depth
  }

  ghost predicate Ancestor(a: Alphabet, lines: seq<string>, title: string, depth: nat, n: nat) {
    exists h: nat :: InForce(a, lines, h, depth, n) && HeadingOf(a, lines[h]).title == title
  }

  lemma AncestorStays(a: Alphabet, lines: seq<string>, title: string, depth: nat, n: nat)
    requires n < |lines| && Ancestor(a, lines, title, depth, n)
    requires HeadingOf(a, lines[n]).NoHeading? || Depth(a, lines, n + 1) > depth
    ensures Ancestor(a, lines, title, depth, n + 1)
  {
    var h: nat :| InForce(a, lines, h, depth, n) && HeadingOf(a, lines[h]).title == title;
    InForceStays(a, lines, h, depth, n);
  }

  lemma InForceStays(a: Alphabet, lines: seq<string>, h: nat, depth: nat, n: nat)
    requires n < |lines| && InForce(a, lines, h, depth, n)
    requires HeadingOf(a, lines[n]).NoHeading? || Depth(a, lines, n + 1) > depth
    ensures InForce(a, lines, h, depth, n + 1)
  {
    forall j | h < j < n + 1 && HeadingOf(a, lines[j]).Heading?
      ensures Depth(a, lines, j + 1) > depth
    {
      if j < n {
        assert InForce(a, lines, h, depth, n);
      }
    }
  }

  lemma Enters(a: Alphabet, lines: seq<string>, n: nat)
    requires n < |lines| && HeadingOf(a, lines[n]).Heading? && |PathAt(a, lines, n)| == Depth(a, lines, n)
    ensures var before, path, d := PathAt(a, lines, n), PathAt(a, lines, n + 1), Depth(a, lines, n + 1);
            0 < d == |path| <= |before| + 1 && path == before[..d - 1] + [HeadingOf(a, lines[n]).title]
    ensures Ancestor(a, lines, HeadingOf(a, lines[n]).title, Depth(a, lines, n + 1), n + 1)
  {
    assert InForce(a, lines, n, Depth(a, lines, n + 1), n + 1);
  }

  // The path holds the headings in force, by depth.
  lemma {:induction false} PathIsInForce(a: Alphabet, lines: seq<string>, n: nat)
    requires n <= |lines|
    ensures |PathAt(a, lines, n)| == Depth(a, lines, n)
    ensures forall k :: 0 <= k < |PathAt(a, lines, n)| ==> Ancestor(a, lines, PathAt(a, lines, n)[k], k + 1, n)
  {
    if n > 0 {
      PathIsInForce(a, lines, n - 1);
      var before, path := PathAt(a, lines, n - 1), PathAt(a, lines, n);
      if HeadingOf(a, lines[n - 1]).Heading? {
        Enters(a, lines, n - 1);
      }
      forall k | 0 <= k < |path|
        ensures Ancestor(a, lines, path[k], k + 1, n)
      {
        if HeadingOf(a, lines[n - 1]).NoHeading? || k < |path| - 1 {
          assert path[k] == before[k];
          AncestorStays(a, lines, before[k], k + 1, n - 1);
        }
      }
    }
  }

  // The level of the last heading before line n, or 0.
  function LevelBefore(a: Alphabet, lines: seq<string>, n: nat): nat
    requires n <= |lines|
  {
    if n == 0 then 0
    else if HeadingOf(a, lines[n - 1]).Heading? then HeadingOf(a, lines[n - 1]).level
    else LevelBefore(a, lines, n - 1)
  }

  /** Where no heading is more than one level below the one before it, the depth of a heading is its level. So the path
      is then the chain of ancestors: the last heading of each level with no heading of that level or a higher one
      behind it. */
  lemma {:induction false} DepthIsLevel(a: Alphabet, lines: seq<string>, n: nat)
    requires n <= |lines|
    requires forall i: nat :: i < n && HeadingOf(a, lines[i]).Heading? ==>
               HeadingOf(a, lines[i]).level <= LevelBefore(a, lines, i) + 1
    ensures Depth(a, lines, n) == LevelBefore(a, lines, n)
  {
    if n > 0 {
      DepthIsLevel(a, lines, n - 1);
    }
  }

  // A part of the section, under the headings up to its end.
  ghost predicate Under(a: Alphabet, lines: seq<string>, l: Limits, c: Chunk, b: nat, j: nat) {
    && OfSection(a, lines, l, c, b, j)
    && (Plain(a, lines, 0, j) ==> c.path == [])
    && (forall h: nat :: Led(a, lines, b, h, j) ==>
          c.path != [] && c.path[|c.path| - 1] == HeadingOf(a, lines[h]).title)
    && |c.path| == Depth(a, lines, j)
    && (forall k :: 0 <= k < |c.path| ==> Ancestor(a, lines, c.path[k], k + 1, j))
  }

  lemma SourcedIsUnder(a: Alphabet, lines: seq<string>, l: Limits, c: Chunk)
    requires Sourced(a, lines, l, c)
    ensures exists b: nat, j: nat :: Under(a, lines, l, c, b, j)
  {
    var b: nat, j: nat :| OfSection(a, lines, l, c, b, j);
    PathOfOpen(a, lines, b, j);
    PathIsInForce(a, lines, j);
    assert Under(a, lines, l, c, b, j);
  }

  /** Every chunk is a part of one section of the text, which ends at the next heading or at the end. Its path is that
      of the headings up to there: for each depth the last heading at that depth with only deeper ones behind it. It
      ends with the title of the heading the section starts with, and is empty before the first heading. */
  lemma ChunkUnderHeading(a: Alphabet, markdown: string, o: Options, l: Limits, c: Chunk)
    requires a.Proper() && c in Chunks(a, markdown, o)
    requires l.target == if o.targetTokens > 0 then o.targetTokens else 550
    requires l.most == if o.maxTokens > 0 then o.maxTokens else 800
    ensures exists b: nat, j: nat :: Under(a, Lines(Unix(markdown)), l, c, b, j)
  {
    var lines := Lines(Unix(markdown));
    var from := ReadSections(a, lines, l, |lines|);
    assert lines[..|lines|] == lines;
    FlushSourced(a, lines, l, |lines|, Read(a, lines, l), from);
    SourcedIsUnder(a, lines, l, c);
  }
}
