/** The Markdown chunker (internal/service/markdown_chunker.go): greedy packing of headed sections. */
module Chunker {
  import opened Text

  datatype Options = Options(targetTokens: int, maxTokens: int)

  datatype Limits = Limits(target: nat, most: nat)

  function Effective(o: Options): Limits {
    Limits(if o.targetTokens <= 0 then 550 else o.targetTokens, if o.maxTokens <= 0 then 800 else o.maxTokens)
  }

  datatype Chunk = Chunk(text: string, path: seq<string>)

  // ---- splitting one section ----

  // out: finished chunks; cur, tokens: the chunk being packed.
  datatype Packing = Packing(out: seq<string>, cur: seq<string>, tokens: nat)

  const START := Packing([], [], 0)

  function Close(p: Packing, sep: string): Packing {
    Packing(p.out + [Join(p.cur, sep)], [], 0)
  }

  function Add(p: Packing, part: string, count: nat, sep: string, target: nat): Packing {
    var q := if p.tokens > 0 && p.tokens + count > target then Close(p, sep) else p;
    Packing(q.out, q.cur + [part], q.tokens + count)
  }

  function AddLines(a: Alphabet, p: Packing, lines: seq<string>, target: nat): Packing {
    if lines == [] then p
    else
      var init, last := lines[..|lines| - 1], lines[|lines| - 1];
      Add(AddLines(a, p, init, target), last, a.Tokens(last), "\n", target)
  }

  function AddParagraph(a: Alphabet, p: Packing, raw: string, l: Limits): Packing {
    var paragraph := a.Trim(raw);
    if paragraph == "" then p
    else
      var count := a.Tokens(paragraph);
      if count <= l.most then Add(p, paragraph, count, "\n\n", l.target)
      else
        var q := if p.tokens > 0 && p.tokens + count > l.target then Close(p, "\n\n") else p;
        AddLines(a, q, Lines(paragraph), l.target)
  }

  function AddParagraphs(a: Alphabet, paragraphs: seq<string>, l: Limits): Packing {
    if paragraphs == [] then START
    else AddParagraph(a, AddParagraphs(a, paragraphs[..|paragraphs| - 1], l), paragraphs[|paragraphs| - 1], l)
  }

  function SplitParts(a: Alphabet, text: string, l: Limits): seq<string> {
    if a.Tokens(text) <= l.most then [text]
    else
      var p := AddParagraphs(a, Paragraphs(text), l);
      if p.cur != [] then p.out + [Join(p.cur, "\n\n")] else p.out
  }

  // Every finished chunk has ink and is within the bound; the open one is counted right and within it too.
  ghost predicate Packed(a: Alphabet, p: Packing, bound: nat) {
    && (forall i :: 0 <= i < |p.out| ==> a.Ink(p.out[i]) != "" && a.Tokens(p.out[i]) <= bound)
    && p.tokens == a.TokensOf(p.cur) <= bound
  }

  function InkIn(a: Alphabet, p: Packing): string {
    a.InkOf(p.out) + a.InkOf(p.cur)
  }

  lemma {:induction false} CountNeedsInk(a: Alphabet, parts: seq<string>)
    requires a.Proper() && a.InkOf(parts) == ""
    ensures a.TokensOf(parts) == 0
  {
    if parts != [] {
      a.TokensNeedInk(parts[0], false);
      CountNeedsInk(a, parts[1..]);
    }
  }

  lemma ClosePacked(a: Alphabet, p: Packing, sep: string, bound: nat)
    requires a.Proper() && Packed(a, p, bound) && a.InkOf(p.cur) != "" && (sep == "\n" || sep == "\n\n")
    ensures Packed(a, Close(p, sep), bound)
    ensures InkIn(a, Close(p, sep)) == InkIn(a, p)
  {
    a.NewlinesHaveNoInk();
    a.InkJoin(p.cur, sep);
    a.TokensJoin(p.cur, sep);
    a.InkOfConcat(p.out, [Join(p.cur, sep)]);
    assert a.InkOf([Join(p.cur, sep)]) == a.Ink(Join(p.cur, sep)) + a.InkOf([]);
  }

  lemma PushPacked(a: Alphabet, q: Packing, part: string, bound: nat)
    requires Packed(a, q, bound) && q.tokens + a.Tokens(part) <= bound
    ensures var r := Packing(q.out, q.cur + [part], q.tokens + a.Tokens(part));
            && Packed(a, r, bound)
            && InkIn(a, r) == InkIn(a, q) + a.Ink(part)
            && (a.Ink(part) != "" ==> a.InkOf(r.cur) != "")
  {
    a.TokensOfPush(q.cur, part);
    a.InkOfPush(q.cur, part);
    Regroup(a.InkOf(q.out), a.InkOf(q.cur), a.Ink(part));
  }

  lemma AddPacked(a: Alphabet, p: Packing, part: string, sep: string, target: nat, bound: nat)
    requires a.Proper() && Packed(a, p, bound) && (sep == "\n" || sep == "\n\n")
    requires target <= bound && a.Tokens(part) <= bound
    ensures var q := Add(p, part, a.Tokens(part), sep, target);
            && Packed(a, q, bound)
            && InkIn(a, q) == InkIn(a, p) + a.Ink(part)
            && (a.Ink(part) != "" ==> a.InkOf(q.cur) != "")
  {
    if p.tokens > 0 && p.tokens + a.Tokens(part) > target {
      if a.InkOf(p.cur) == "" {
        CountNeedsInk(a, p.cur);
      }
      ClosePacked(a, p, sep, bound);
      PushPacked(a, Close(p, sep), part, bound);
    } else {
      PushPacked(a, p, part, bound);
    }
  }

  lemma InkOfLast(a: Alphabet, before: string, lines: seq<string>)
    requires lines != []
    ensures before + a.InkOf(lines[..|lines| - 1]) + a.Ink(lines[|lines| - 1]) == before + a.InkOf(lines)
  {
    var init, last := lines[..|lines| - 1], lines[|lines| - 1];
    a.InkOfPush(init, last);
    assert lines == init + [last];
    Regroup(before, a.InkOf(init), a.Ink(last));
  }

  lemma {:induction false} AddLinesPacked(a: Alphabet, p: Packing, lines: seq<string>, target: nat, bound: nat)
    requires a.Proper() && Packed(a, p, bound) && target <= bound
    requires forall i :: 0 <= i < |lines| ==> a.Tokens(lines[i]) <= bound
    ensures var q := AddLines(a, p, lines, target);
            && Packed(a, q, bound)
            && InkIn(a, q) == InkIn(a, p) + a.InkOf(lines)
            && (lines != [] && a.Ink(lines[|lines| - 1]) != "" ==> a.InkOf(q.cur) != "")
  {
    if lines != [] {
      var init, last := lines[..|lines| - 1], lines[|lines| - 1];
      AddLinesPacked(a, p, init, target, bound);
      AddPacked(a, AddLines(a, p, init, target), last, "\n", target, bound);
      InkOfLast(a, InkIn(a, p), lines);
    } else {
      assert a.InkOf(lines) == "";
    }
  }

  // The last line of a trimmed paragraph ends with a visible character.
  lemma LastLineHasInk(a: Alphabet, s: string)
    requires a.Proper() && s != "" && !a.space(s[|s| - 1])
    ensures a.Ink(Lines(s)[|Lines(s)| - 1]) != ""
    decreases s
  {
    if |s| == 1 {
      assert Lines(s[1..]) == [""];
      assert Lines(s) == [[s[0]] + ""];
      assert [s[0]] + "" == s;
      a.InkAtEnd(s);
    } else {
      LastLineHasInk(a, s[1..]);
      var rest := Lines(s[1..]);
      if s[0] != '\n' && |rest| == 1 {
        a.InkConcat([s[0]], rest[0]);
      }
    }
  }

  lemma LinesWithin(a: Alphabet, paragraph: string, bound: nat)
    requires a.Proper() && a.Peak(paragraph) <= bound
    ensures forall i :: 0 <= i < |Lines(paragraph)| ==> a.Tokens(Lines(paragraph)[i]) <= bound
    ensures a.InkOf(Lines(paragraph)) == a.Ink(paragraph)
  {
    var ls := Lines(paragraph);
    LinesJoin(paragraph);
    LinesNewlineFree(paragraph);
    a.PeakOfJoin(ls, "\n", bound);
    a.NewlinesHaveNoInk();
    a.InkJoin(ls, "\n");
    forall i | 0 <= i < |ls|
      ensures a.Tokens(ls[i]) <= bound
    {
      a.PeakOfLine(ls[i], false, 0);
    }
  }

  // Between paragraphs the open chunk is empty or has ink.
  ghost predicate Settled(a: Alphabet, p: Packing, bound: nat) {
    Packed(a, p, bound) && (p.cur == [] || a.InkOf(p.cur) != "")
  }

  lemma TrimEnd(a: Alphabet, s: string)
    ensures a.Trim(s) != "" ==> !a.space(a.Trim(s)[|a.Trim(s)| - 1])
  {
    a.InkTrimRight(a.TrimLeft(s));
  }

  lemma AddLongParagraph(a: Alphabet, p: Packing, raw: string, target: nat, bound: nat)
    requires a.Proper() && Settled(a, p, bound) && target <= bound && a.Peak(raw) <= bound && a.Trim(raw) != ""
    ensures Settled(a, AddLines(a, p, Lines(a.Trim(raw)), target), bound)
    ensures InkIn(a, AddLines(a, p, Lines(a.Trim(raw)), target)) == InkIn(a, p) + a.Ink(raw)
  {
    var paragraph := a.Trim(raw);
    a.InkTrim(raw);
    a.PeakTrim(raw);
    LinesWithin(a, paragraph, bound);
    AddLinesPacked(a, p, Lines(paragraph), target, bound);
    TrimEnd(a, raw);
    LastLineHasInk(a, paragraph);
  }

  lemma AddParagraphSettled(a: Alphabet, p: Packing, raw: string, l: Limits, bound: nat)
    requires a.Proper() && Settled(a, p, bound) && l.target <= bound && l.most <= bound && a.Peak(raw) <= bound
    ensures Settled(a, AddParagraph(a, p, raw, l), bound)
    ensures InkIn(a, AddParagraph(a, p, raw, l)) == InkIn(a, p) + a.Ink(raw)
  {
    var paragraph := a.Trim(raw);
    a.InkTrim(raw);
    var count := a.Tokens(paragraph);
    if paragraph == "" {
    } else if count <= l.most {
      AddPacked(a, p, paragraph, "\n\n", l.target, bound);
    } else {
      var q := p;
      if p.tokens > 0 && p.tokens + count > l.target {
        ClosePacked(a, p, "\n\n", bound);
        q := Close(p, "\n\n");
      }
      AddLongParagraph(a, q, raw, l.target, bound);
    }
  }

  lemma {:induction false} AddParagraphsSettled(a: Alphabet, paragraphs: seq<string>, l: Limits, bound: nat)
    requires a.Proper() && l.target <= bound && l.most <= bound
    requires forall i :: 0 <= i < |paragraphs| ==> a.Peak(paragraphs[i]) <= bound
    ensures Settled(a, AddParagraphs(a, paragraphs, l), bound)
    ensures InkIn(a, AddParagraphs(a, paragraphs, l)) == a.InkOf(paragraphs)
  {
    if paragraphs != [] {
      var init, last := paragraphs[..|paragraphs| - 1], paragraphs[|paragraphs| - 1];
      AddParagraphsSettled(a, init, l, bound);
      AddParagraphSettled(a, AddParagraphs(a, init, l), last, l, bound);
      assert paragraphs == init + [last];
      a.InkOfConcat(init, [last]);
      assert a.InkOf([last]) == a.Ink(last) + a.InkOf([]);
    }
  }

  // What a list of chunk texts has to be for a text.
  ghost predicate Faithful(a: Alphabet, parts: seq<string>, text: string, bound: nat) {
    && a.InkOf(parts) == a.Ink(text)
    && forall i :: 0 <= i < |parts| ==> a.Ink(parts[i]) != "" && a.Tokens(parts[i]) <= bound
  }

  lemma SplitFaithful(a: Alphabet, text: string, l: Limits, bound: nat)
    requires a.Proper() && a.Ink(text) != "" && l.target <= bound && l.most <= bound && a.Peak(text) <= bound
    ensures Faithful(a, SplitParts(a, text, l), text, bound)
  {
    if a.Tokens(text) <= l.most {
      assert a.InkOf([text]) == a.Ink(text) + a.InkOf([]);
    } else {
      var ps := Paragraphs(text);
      ParagraphsJoin(text);
      a.PeakOfJoin(ps, "\n\n", bound);
      a.NewlinesHaveNoInk();
      a.InkJoin(ps, "\n\n");
      AddParagraphsSettled(a, ps, l, bound);
      var p := AddParagraphs(a, ps, l);
      if p.cur != [] {
        ClosePacked(a, p, "\n\n", bound);
        assert a.InkOf([]) == "";
      } else {
        assert a.InkOf(p.cur) == "";
      }
    }
  }

  // ---- headings and sections ----

  datatype Heading = NoHeading | Heading(level: nat, title: string)

  function Hashes(s: string): (n: nat)
    ensures n <= |s|
  {
    if s == "" || s[0] != '#' then 0 else 1 + Hashes(s[1..])
  }

  function HeadingOf(a: Alphabet, line: string): Heading {
    var trimmed := a.Trim(line);
    var level := Hashes(trimmed);
    if level == 0 || level > 6 || |trimmed| == level || trimmed[level] != ' ' then NoHeading
    else
      var title := a.Trim(trimmed[level..]);
      if title == "" then NoHeading else Heading(level, title)
  }

  datatype Document = Document(chunks: seq<Chunk>, path: seq<string>, section: seq<string>)

  const BLANK := Document([], [], [])

  function Headed(parts: seq<string>, path: seq<string>): (cs: seq<Chunk>)
    ensures |cs| == |parts| && forall i :: 0 <= i < |cs| ==> cs[i] == Chunk(parts[i], path)
  {
    if parts == [] then [] else [Chunk(parts[0], path)] + Headed(parts[1..], path)
  }

  function Flush(a: Alphabet, d: Document, l: Limits): Document {
    var text := a.Trim(Join(d.section, "\n"));
    if text == "" then d else Document(d.chunks + Headed(SplitParts(a, text, l), d.path), d.path, [])
  }

  function Enter(path: seq<string>, level: nat, title: string): seq<string>
    requires level > 0
  {
    (if |path| >= level then path[..level - 1] else path) + [title]
  }

  function AddLine(a: Alphabet, d: Document, line: string, l: Limits): Document {
    match HeadingOf(a, line)
    case NoHeading => d.(section := d.section + [line])
    case Heading(level, title) =>
      var f := Flush(a, d, l);
      Document(f.chunks, Enter(f.path, level, title), f.section + [line])
  }

  function Read(a: Alphabet, lines: seq<string>, l: Limits): Document {
    if lines == [] then BLANK
    else AddLine(a, Read(a, lines[..|lines| - 1], l), lines[|lines| - 1], l)
  }

  function Chunks(a: Alphabet, markdown: string, o: Options): seq<Chunk> {
    Flush(a, Read(a, Lines(Unix(markdown)), Effective(o)), Effective(o)).chunks
  }

  function Texts(chunks: seq<Chunk>): (ts: seq<string>)
    ensures |ts| == |chunks| && forall i :: 0 <= i < |ts| ==> ts[i] == chunks[i].text
  {
    if chunks == [] then [] else [chunks[0].text] + Texts(chunks[1..])
  }

  // The path is what Enter makes of the headings met, never deeper than six.
  ghost predicate Whole(a: Alphabet, d: Document, bound: nat) {
    && (forall i :: 0 <= i < |d.chunks| ==> a.Ink(d.chunks[i].text) != "" && a.Tokens(d.chunks[i].text) <= bound
                                             && |d.chunks[i].path| <= 6)
    && (forall i :: 0 <= i < |d.section| ==> NewlineFree(d.section[i]) && a.Tokens(d.section[i]) <= bound)
    && |d.path| <= 6
  }

  function InkOfDocument(a: Alphabet, d: Document): string {
    a.InkOf(Texts(d.chunks)) + a.InkOf(d.section)
  }

  // The chunks of one section.
  lemma SectionFaithful(a: Alphabet, section: seq<string>, l: Limits, bound: nat)
    requires a.Proper() && l.target <= bound && l.most <= bound
    requires forall i :: 0 <= i < |section| ==> NewlineFree(section[i]) && a.Tokens(section[i]) <= bound
    ensures var text := a.Trim(Join(section, "\n"));
            && a.Ink(text) == a.InkOf(section)
            && (text == "" <==> a.InkOf(section) == "")
            && (text != "" ==> Faithful(a, SplitParts(a, text, l), text, bound))
  {
    var joined := Join(section, "\n");
    a.InkTrim(joined);
    a.NewlinesHaveNoInk();
    a.InkJoin(section, "\n");
    if a.Trim(joined) != "" {
      SectionPeak(a, section, bound);
      a.PeakTrim(joined);
      SplitFaithful(a, a.Trim(joined), l, bound);
    }
  }

  lemma AppendChunks(a: Alphabet, chunks: seq<Chunk>, parts: seq<string>, path: seq<string>)
    ensures a.InkOf(Texts(chunks + Headed(parts, path))) == a.InkOf(Texts(chunks)) + a.InkOf(parts)
  {
    assert Texts(chunks + Headed(parts, path)) == Texts(chunks) + parts;
    a.InkOfConcat(Texts(chunks), parts);
  }

  lemma FlushWhole(a: Alphabet, d: Document, l: Limits, bound: nat)
    requires a.Proper() && Whole(a, d, bound) && l.target <= bound && l.most <= bound
    ensures Whole(a, Flush(a, d, l), bound)
    ensures InkOfDocument(a, Flush(a, d, l)) == InkOfDocument(a, d)
    ensures a.InkOf(Flush(a, d, l).section) == ""
  {
    SectionFaithful(a, d.section, l, bound);
    var text := a.Trim(Join(d.section, "\n"));
    if text != "" {
      AppendChunks(a, d.chunks, SplitParts(a, text, l), d.path);
      assert a.InkOf([]) == "";
    }
  }

  lemma SectionPeak(a: Alphabet, lines: seq<string>, bound: nat)
    requires forall i :: 0 <= i < |lines| ==> NewlineFree(lines[i]) && a.Tokens(lines[i]) <= bound
    ensures a.Peak(Join(lines, "\n")) <= bound
  {
    forall i | 0 <= i < |lines|
      ensures a.Peak(lines[i]) <= bound
    {
      a.PeakOfLine(lines[i], false, 0);
    }
    a.PeakOfJoin(lines, "\n", bound);
  }

  lemma PushLine(a: Alphabet, d: Document, line: string, path: seq<string>, bound: nat)
    requires Whole(a, d, bound) && NewlineFree(line) && a.Tokens(line) <= bound && |path| <= 6
    ensures var e := Document(d.chunks, path, d.section + [line]);
            Whole(a, e, bound) && InkOfDocument(a, e) == InkOfDocument(a, d) + a.Ink(line)
  {
    a.InkOfPush(d.section, line);
    Regroup(a.InkOf(Texts(d.chunks)), a.InkOf(d.section), a.Ink(line));
  }

  lemma AddLineWhole(a: Alphabet, d: Document, line: string, l: Limits, bound: nat)
    requires a.Proper() && Whole(a, d, bound) && l.target <= bound && l.most <= bound
    requires NewlineFree(line) && a.Tokens(line) <= bound
    ensures Whole(a, AddLine(a, d, line, l), bound)
    ensures InkOfDocument(a, AddLine(a, d, line, l)) == InkOfDocument(a, d) + a.Ink(line)
  {
    match HeadingOf(a, line) {
      case NoHeading => PushLine(a, d, line, d.path, bound);
      case Heading(level, title) =>
        FlushWhole(a, d, l, bound);
        var f := Flush(a, d, l);
        PushLine(a, f, line, Enter(f.path, level, title), bound);
    }
  }

  lemma {:induction false} ReadWhole(a: Alphabet, lines: seq<string>, l: Limits, bound: nat)
    requires a.Proper() && l.target <= bound && l.most <= bound
    requires forall i :: 0 <= i < |lines| ==> NewlineFree(lines[i]) && a.Tokens(lines[i]) <= bound
    ensures Whole(a, Read(a, lines, l), bound)
    ensures InkOfDocument(a, Read(a, lines, l)) == a.InkOf(lines)
  {
    if lines != [] {
      var init, last := lines[..|lines| - 1], lines[|lines| - 1];
      ReadWhole(a, init, l, bound);
      AddLineWhole(a, Read(a, init, l), last, l, bound);
      assert lines == init + [last];
      a.InkOfPush(init, last);
    }
  }

  // The largest estimate of a single line of the input.
  function LargestLine(a: Alphabet, lines: seq<string>): nat {
    if lines == [] then 0 else Max(a.Tokens(lines[0]), LargestLine(a, lines[1..]))
  }

  lemma {:induction false} LargestLineBounds(a: Alphabet, lines: seq<string>)
    ensures forall i :: 0 <= i < |lines| ==> a.Tokens(lines[i]) <= LargestLine(a, lines)
  {
    if lines != [] {
      LargestLineBounds(a, lines[1..]);
      assert forall i :: 0 < i < |lines| ==> lines[i] == lines[1..][i - 1];
    }
  }

  function Bound(a: Alphabet, markdown: string, o: Options): nat {
    Max(Max(Effective(o).target, Effective(o).most), LargestLine(a, Lines(Unix(markdown))))
  }

  /** For every input and options: the chunks in order hold exactly the visible characters of the input in order, every
      chunk has one, and no chunk's estimate exceeds the larger of the two limits and the largest line. */
  lemma ChunkingConserves(a: Alphabet, markdown: string, o: Options)
    requires a.Proper()
    ensures a.InkOf(Texts(Chunks(a, markdown, o))) == a.Ink(markdown)
    ensures forall i :: 0 <= i < |Chunks(a, markdown, o)| ==>
              var c := Chunks(a, markdown, o)[i];
              a.Ink(c.text) != "" && a.Tokens(c.text) <= Bound(a, markdown, o) && |c.path| <= 6
  {
    var l, bound := Effective(o), Bound(a, markdown, o);
    var lines := Lines(Unix(markdown));
    LinesNewlineFree(Unix(markdown));
    LargestLineBounds(a, lines);
    ReadWhole(a, lines, l, bound);
    FlushWhole(a, Read(a, lines, l), l, bound);
    LinesJoin(Unix(markdown));
    a.NewlinesHaveNoInk();
    a.InkJoin(lines, "\n");
    a.InkUnix(markdown);
  }

  // ---- the loops ----

  method EstimateTokens(a: Alphabet, text: string) returns (count: nat)
    ensures count == a.Tokens(text)
  {
    count := 0;
    var inWord := false;
    var i := 0;
    while i < |text|
      invariant 0 <= i <= |text|
      invariant count + a.TokensFrom(text[i..], inWord) == a.Tokens(text)
    {
      var r := text[i];
      assert text[i..][1..] == text[i + 1..];
      if a.han(r) {
        count := count + 1;
        inWord := false;
      } else if a.word(r) {
        if !inWord {
          count := count + 1;
          inWord := true;
        }
      } else {
        inWord := false;
      }
      i := i + 1;
    }
  }

  method MarkdownHeading(a: Alphabet, line: string) returns (level: nat, title: string, ok: bool)
    ensures ok <==> HeadingOf(a, line).Heading?
    ensures ok ==> HeadingOf(a, line) == Heading(level, title)
  {
    var trimmed := a.Trim(line);
    level := 0;
    while level < |trimmed| && trimmed[level] == '#'
      invariant level <= |trimmed|
      invariant Hashes(trimmed) == level + Hashes(trimmed[level..])
    {
      assert trimmed[level..][1..] == trimmed[level + 1..];
      level := level + 1;
    }
    if level == 0 || level > 6 || |trimmed| == level || trimmed[level] != ' ' {
      return 0, "", false;
    }
    title := a.Trim(trimmed[level..]);
    ok := title != "";
  }

  method SplitChunk(a: Alphabet, text: string, l: Limits) returns (out: seq<string>)
    ensures out == SplitParts(a, text, l)
  {
    var whole := EstimateTokens(a, text);
    if whole <= l.most {
      return [text];
    }
    var paragraphs := Paragraphs(text);
    out := [];
    var current: seq<string> := [];
    var currentTokens: nat := 0;
    var i := 0;
    while i < |paragraphs|
      invariant 0 <= i <= |paragraphs|
      invariant Packing(out, current, currentTokens) == AddParagraphs(a, paragraphs[..i], l)
    {
      assert paragraphs[..i + 1][..i] == paragraphs[..i];
      assert AddParagraphs(a, paragraphs[..i + 1], l)
          == AddParagraph(a, Packing(out, current, currentTokens), paragraphs[i], l);
      var paragraph := a.Trim(paragraphs[i]);
      i := i + 1;
      if paragraph == "" {
        continue;
      }
      var count := EstimateTokens(a, paragraph);
      if currentTokens > 0 && currentTokens + count > l.target {
        out := out + [Join(current, "\n\n")];
        current, currentTokens := [], 0;
      }
      if count > l.most {
        out, current, currentTokens := SplitLines(a, Lines(paragraph), l.target, out, current, currentTokens);
        continue;
      }
      current := current + [paragraph];
      currentTokens := currentTokens + count;
    }
    assert paragraphs[..i] == paragraphs;
    if |current| > 0 {
      out := out + [Join(current, "\n\n")];
    }
  }

  // The inner loop of SplitChunk.
  method SplitLines(a: Alphabet, lines: seq<string>, target: nat, out0: seq<string>, current0: seq<string>,
                    tokens0: nat)
    returns (out: seq<string>, current: seq<string>, currentTokens: nat)
    ensures Packing(out, current, currentTokens) == AddLines(a, Packing(out0, current0, tokens0), lines, target)
  {
    out, current, currentTokens := out0, current0, tokens0;
    var i := 0;
    while i < |lines|
      invariant 0 <= i <= |lines|
      invariant Packing(out, current, currentTokens)
                == AddLines(a, Packing(out0, current0, tokens0), lines[..i], target)
    {
      assert lines[..i + 1][..i] == lines[..i];
      var count := EstimateTokens(a, lines[i]);
      if currentTokens > 0 && currentTokens + count > target {
        out := out + [Join(current, "\n")];
        current, currentTokens := [], 0;
      }
      current := current + [lines[i]];
      currentTokens := currentTokens + count;
      i := i + 1;
    }
    assert lines[..i] == lines;
  }

  method AppendParts(before: seq<Chunk>, parts: seq<string>, path: seq<string>) returns (chunks: seq<Chunk>)
    ensures chunks == before + Headed(parts, path)
  {
    chunks := before;
    var i := 0;
    while i < |parts|
      invariant 0 <= i <= |parts|
      invariant chunks == before + Headed(parts, path)[..i]
    {
      chunks := chunks + [Chunk(parts[i], path)];
      i := i + 1;
    }
  }

  // Leaves the headings that a heading of this level ends.
  method PopPath(start: seq<string>, level: nat) returns (path: seq<string>)
    requires level > 0
    ensures path == if |start| >= level then start[..level - 1] else start
  {
    path := start;
    while |path| >= level
      invariant |path| <= |start| && path == start[..|path|]
      invariant |start| < level ==> path == start
      invariant |start| >= level ==> |path| >= level - 1
      decreases |path|
    {
      path := path[..|path| - 1];
    }
  }

  method FlushSection(a: Alphabet, d: Document, l: Limits) returns (f: Document)
    ensures f == Flush(a, d, l)
  {
    var text := a.Trim(Join(d.section, "\n"));
    if text == "" {
      return d;
    }
    var parts := SplitChunk(a, text, l);
    var chunks := AppendParts(d.chunks, parts, d.path);
    f := Document(chunks, d.path, []);
  }

  // The body of the loop over the lines.
  method ReadLine(a: Alphabet, before: Document, line: string, l: Limits) returns (d: Document)
    ensures d == AddLine(a, before, line, l)
  {
    d := before;
    var level, title, ok := MarkdownHeading(a, line);
    if ok {
      d := FlushSection(a, d, l);
      var path := PopPath(d.path, level);
      d := Document(d.chunks, path + [title], d.section + [line]);
    } else {
      d := d.(section := d.section + [line]);
    }
  }

  method ChunkMarkdown(a: Alphabet, markdown: string, o: Options) returns (chunks: seq<Chunk>)
    requires a.Proper()
    ensures chunks == Chunks(a, markdown, o)
    ensures a.InkOf(Texts(chunks)) == a.Ink(markdown)
    ensures forall i :: 0 <= i < |chunks| ==>
              a.Ink(chunks[i].text) != "" && a.Tokens(chunks[i].text) <= Bound(a, markdown, o)
  {
    var l := Effective(o);
    var lines := Lines(Unix(markdown));
    var d := BLANK;
    var i := 0;
    while i < |lines|
      invariant 0 <= i <= |lines|
      invariant d == Read(a, lines[..i], l)
    {
      assert lines[..i + 1][..i] == lines[..i];
      d := ReadLine(a, d, lines[i], l);
      i := i + 1;
    }
    assert lines[..i] == lines;
    d := FlushSection(a, d, l);
    chunks := d.chunks;
    ChunkingConserves(a, markdown, o);
  }
}
