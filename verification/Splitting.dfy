/** Where the chunker cuts a section that is too long (splitMarkdownChunk in internal/service/markdown_chunker.go):
    greedily, between paragraphs, and between the lines of a paragraph that is too long itself. */
module Splitting {
  import opened Text
  import opened Chunker

  // What is never cut. weight: the estimate that is held against the target when it comes next; sep: what separates it
  // from the piece before it, and joins the part it closes.
  datatype Piece = Piece(text: string, weight: nat, sep: string)

  function LinePieces(a: Alphabet, lines: seq<string>): (ps: seq<Piece>)
    ensures |ps| == |lines| && forall i :: 0 <= i < |ps| ==> ps[i] == Piece(lines[i], a.Tokens(lines[i]), "\n")
  {
    seq(|lines|, i requires 0 <= i < |lines| => Piece(lines[i], a.Tokens(lines[i]), "\n"))
  }

  // A paragraph, or its lines if it is over the maximum: the first of them is held against the target with the estimate
  // of the whole paragraph.
  function PiecesOf(a: Alphabet, raw: string, most: nat): seq<Piece> {
    var paragraph := a.Trim(raw);
    if paragraph == "" then []
    else if a.Tokens(paragraph) <= most then [Piece(paragraph, a.Tokens(paragraph), "\n\n")]
    else [Piece(Lines(paragraph)[0], a.Tokens(paragraph), "\n\n")] + LinePieces(a, Lines(paragraph)[1..])
  }

  function Pieces(a: Alphabet, paragraphs: seq<string>, most: nat): seq<Piece> {
    if paragraphs == [] then []
    else Pieces(a, paragraphs[..|paragraphs| - 1], most) + PiecesOf(a, paragraphs[|paragraphs| - 1], most)
  }

  function TextsOf(ps: seq<Piece>): (ts: seq<string>)
    ensures |ts| == |ps| && forall i :: 0 <= i < |ts| ==> ts[i] == ps[i].text
  {
    seq(|ps|, i requires 0 <= i < |ps| => ps[i].text)
  }

  function Estimate(a: Alphabet, ps: seq<Piece>): nat {
    a.TokensOf(TextsOf(ps))
  }

  // These pieces and the next one are too much for one part.
  predicate Full(a: Alphabet, ps: seq<Piece>, next: Piece, target: nat) {
    Estimate(a, ps) > 0 && Estimate(a, ps) + next.weight > target
  }

  // From start on no piece was too much.
  predicate Grown(a: Alphabet, ps: seq<Piece>, start: nat, target: nat) {
    forall j {:trigger ps[j]} :: start < j < |ps| ==> !Full(a, ps[start..j], ps[j], target)
  }

  // One part: the pieces from start on, joined.
  predicate Part(a: Alphabet, ps: seq<Piece>, text: string, sep: string, start: nat, target: nat) {
    start < |ps| && text == Join(TextsOf(ps[start..]), sep) && Grown(a, ps, start, target)
  }

  // The parts are the pieces in order, each cut exactly before the first piece that is too much for it, the last one
  // before next.
  ghost predicate CutBefore(a: Alphabet, ps: seq<Piece>, parts: seq<string>, next: Piece, target: nat)
    decreases |parts|
  {
    if parts == [] then ps == []
    else
      var last, init := parts[|parts| - 1], parts[..|parts| - 1];
      exists start: nat ::
        Part(a, ps, last, next.sep, start, target) && Full(a, ps[start..], next, target)
        && CutBefore(a, ps[..start], init, ps[start], target)
  }

  // The same with the last part open to the end.
  ghost predicate Cut(a: Alphabet, ps: seq<Piece>, parts: seq<string>, target: nat) {
    if parts == [] then ps == []
    else
      var last, init := parts[|parts| - 1], parts[..|parts| - 1];
      exists start: nat ::
        Part(a, ps, last, "\n\n", start, target) && CutBefore(a, ps[..start], init, ps[start], target)
  }

  // ---- the packing, piece by piece ----

  function Push(a: Alphabet, p: Packing, x: Piece, target: nat): Packing {
    var q := if p.tokens > 0 && p.tokens + x.weight > target then Close(p, x.sep) else p;
    Packing(q.out, q.cur + [x.text], q.tokens + a.Tokens(x.text))
  }

  function PushAll(a: Alphabet, p: Packing, ps: seq<Piece>, target: nat): Packing {
    if ps == [] then p else Push(a, PushAll(a, p, ps[..|ps| - 1], target), ps[|ps| - 1], target)
  }

  // What is open from start on, and what is finished before it.
  ghost predicate Open(a: Alphabet, ps: seq<Piece>, p: Packing, start: nat, target: nat) {
    && start < |ps| && p.cur == TextsOf(ps[start..]) && p.tokens == Estimate(a, ps[start..])
    && Grown(a, ps, start, target) && CutBefore(a, ps[..start], p.out, ps[start], target)
  }

  ghost predicate Packs(a: Alphabet, ps: seq<Piece>, p: Packing, target: nat) {
    if ps == [] then p == START else exists start: nat :: Open(a, ps, p, start, target)
  }

  lemma PushCloses(a: Alphabet, ps: seq<Piece>, p: Packing, start: nat, x: Piece, target: nat)
    requires Open(a, ps, p, start, target) && p.tokens > 0 && p.tokens + x.weight > target
    ensures Open(a, ps + [x], Push(a, p, x, target), |ps|, target)
  {
    var all, q := ps + [x], Push(a, p, x, target);
    assert all[|ps|..] == [x] && all[..|ps|] == ps;
    assert TextsOf([x]) == [x.text];
    assert a.TokensOf([x.text]) == a.Tokens(x.text) + a.TokensOf([]);
    var part := Join(p.cur, x.sep);
    assert (p.out + [part])[..|p.out|] == p.out && (p.out + [part])[|p.out|] == part;
    assert Part(a, ps, part, x.sep, start, target);
    assert Full(a, ps[start..], x, target);
    assert CutBefore(a, ps, p.out + [part], x, target);
  }

  lemma GrownOn(a: Alphabet, ps: seq<Piece>, start: nat, x: Piece, target: nat)
    requires start < |ps| && Grown(a, ps, start, target) && !Full(a, ps[start..], x, target)
    ensures Grown(a, ps + [x], start, target)
  {
    var all := ps + [x];
    forall j | start < j < |all|
      ensures !Full(a, all[start..j], all[j], target)
    {
      assert all[start..j] == ps[start..j];
      if j == |ps| {
        assert ps[start..j] == ps[start..];
      } else {
        assert all[j] == ps[j];
      }
    }
  }

  lemma PushGrows(a: Alphabet, ps: seq<Piece>, p: Packing, start: nat, x: Piece, target: nat)
    requires Open(a, ps, p, start, target) && (p.tokens == 0 || p.tokens + x.weight <= target)
    ensures Open(a, ps + [x], Push(a, p, x, target), start, target)
  {
    var all := ps + [x];
    GrownOn(a, ps, start, x, target);
    assert all[start..] == ps[start..] + [x] && all[..start] == ps[..start] && all[start] == ps[start];
    assert TextsOf(all[start..]) == TextsOf(ps[start..]) + [x.text];
    a.TokensOfPush(TextsOf(ps[start..]), x.text);
  }

  lemma PushFirst(a: Alphabet, x: Piece, target: nat)
    ensures Open(a, [x], Push(a, START, x, target), 0, target)
  {
    assert [x][0..] == [x] && [x][..0] == [];
    assert TextsOf([x]) == [x.text];
    assert a.TokensOf([x.text]) == a.Tokens(x.text) + a.TokensOf([]);
  }

  lemma PushPacks(a: Alphabet, ps: seq<Piece>, p: Packing, x: Piece, target: nat)
    requires Packs(a, ps, p, target)
    ensures Packs(a, ps + [x], Push(a, p, x, target), target)
  {
    if ps == [] {
      PushFirst(a, x, target);
      assert ps + [x] == [x];
    } else {
      var start: nat :| Open(a, ps, p, start, target);
      if p.tokens > 0 && p.tokens + x.weight > target {
        PushCloses(a, ps, p, start, x, target);
      } else {
        PushGrows(a, ps, p, start, x, target);
      }
    }
  }

  lemma Snoc(ps: seq<Piece>, xs: seq<Piece>)
    requires xs != []
    ensures ps + xs == (ps + xs[..|xs| - 1]) + [xs[|xs| - 1]]
  {
  }

  lemma {:induction false} PushAllPacks(a: Alphabet, ps: seq<Piece>, p: Packing, xs: seq<Piece>, target: nat)
    requires Packs(a, ps, p, target)
    ensures Packs(a, ps + xs, PushAll(a, p, xs, target), target)
  {
    if xs == [] {
      assert ps + xs == ps;
    } else {
      var init := xs[..|xs| - 1];
      PushAllPacks(a, ps, p, init, target);
      PushPacks(a, ps + init, PushAll(a, p, init, target), xs[|xs| - 1], target);
      Snoc(ps, xs);
    }
  }

  // ---- the loops do the same ----

  lemma {:induction false} PushLines(a: Alphabet, p: Packing, lines: seq<string>, target: nat)
    ensures PushAll(a, p, LinePieces(a, lines), target) == AddLines(a, p, lines, target)
  {
    if lines != [] {
      var init := lines[..|lines| - 1];
      PushLines(a, p, init, target);
      assert LinePieces(a, lines)[..|lines| - 1] == LinePieces(a, init);
    }
  }

  lemma {:induction false} PushAllConcat(a: Alphabet, p: Packing, x: seq<Piece>, y: seq<Piece>, target: nat)
    ensures PushAll(a, p, x + y, target) == PushAll(a, PushAll(a, p, x, target), y, target)
  {
    if y == [] {
      assert x + y == x;
    } else {
      assert (x + y)[..|x + y| - 1] == x + y[..|y| - 1];
      PushAllConcat(a, p, x, y[..|y| - 1], target);
    }
  }

  lemma {:induction false} AddLinesConcat(a: Alphabet, p: Packing, x: seq<string>, y: seq<string>, target: nat)
    ensures AddLines(a, p, x + y, target) == AddLines(a, AddLines(a, p, x, target), y, target)
  {
    if y == [] {
      assert x + y == x;
    } else {
      assert (x + y)[..|x + y| - 1] == x + y[..|y| - 1];
      AddLinesConcat(a, p, x, y[..|y| - 1], target);
    }
  }

  lemma PushOne(a: Alphabet, p: Packing, x: Piece, target: nat)
    ensures PushAll(a, p, [x], target) == Push(a, p, x, target)
  {
    assert [x][..0] == [];
  }

  // A line has no more tokens than its paragraph.
  lemma FirstLineWithin(a: Alphabet, paragraph: string)
    requires a.Proper()
    ensures a.Tokens(Lines(paragraph)[0]) <= a.Tokens(paragraph)
  {
    LinesJoin(paragraph);
    a.TokensJoin(Lines(paragraph), "\n");
  }

  lemma LongParagraph(a: Alphabet, p: Packing, paragraph: string, l: Limits)
    requires a.Proper()
    ensures var count := a.Tokens(paragraph);
            var q := if p.tokens > 0 && p.tokens + count > l.target then Close(p, "\n\n") else p;
            var first, more := Piece(Lines(paragraph)[0], count, "\n\n"), LinePieces(a, Lines(paragraph)[1..]);
            AddLines(a, q, Lines(paragraph), l.target) == PushAll(a, p, [first] + more, l.target)
  {
    var count, ls := a.Tokens(paragraph), Lines(paragraph);
    var first := Piece(ls[0], count, "\n\n");
    var q := if p.tokens > 0 && p.tokens + count > l.target then Close(p, "\n\n") else p;
    FirstLineWithin(a, paragraph);
    assert ls == [ls[0]] + ls[1..];
    AddLinesConcat(a, q, [ls[0]], ls[1..], l.target);
    assert [ls[0]][..0] == [];
    assert AddLines(a, q, [ls[0]], l.target) == Push(a, p, first, l.target);
    PushAllConcat(a, p, [first], LinePieces(a, ls[1..]), l.target);
    PushOne(a, p, first, l.target);
    PushLines(a, Push(a, p, first, l.target), ls[1..], l.target);
  }

  lemma PushParagraph(a: Alphabet, p: Packing, raw: string, l: Limits)
    requires a.Proper()
    ensures AddParagraph(a, p, raw, l) == PushAll(a, p, PiecesOf(a, raw, l.most), l.target)
  {
    var paragraph := a.Trim(raw);
    if paragraph == "" {
    } else if a.Tokens(paragraph) <= l.most {
      PushOne(a, p, Piece(paragraph, a.Tokens(paragraph), "\n\n"), l.target);
    } else {
      LongParagraph(a, p, paragraph, l);
    }
  }

  lemma {:induction false} ParagraphsPacked(a: Alphabet, paragraphs: seq<string>, l: Limits)
    requires a.Proper()
    ensures Packs(a, Pieces(a, paragraphs, l.most), AddParagraphs(a, paragraphs, l), l.target)
  {
    if paragraphs != [] {
      var init, last := paragraphs[..|paragraphs| - 1], paragraphs[|paragraphs| - 1];
      ParagraphsPacked(a, init, l);
      PushParagraph(a, AddParagraphs(a, init, l), last, l);
      PushAllPacks(a, Pieces(a, init, l.most), AddParagraphs(a, init, l), PiecesOf(a, last, l.most), l.target);
    }
  }

  /** A section within the maximum stays whole. A longer one is cut into stretches of its pieces, joined by blank lines,
      or by line breaks where the next piece is a further line of a long paragraph: a cut is made before a piece exactly
      when the part has tokens already and would go over the target with it. */
  lemma SplitExactly(a: Alphabet, text: string, l: Limits)
    requires a.Proper()
    ensures a.Tokens(text) <= l.most ==> SplitParts(a, text, l) == [text]
    ensures a.Tokens(text) > l.most ==>
              Cut(a, Pieces(a, Paragraphs(text), l.most), SplitParts(a, text, l), l.target)
  {
    if a.Tokens(text) > l.most {
      var ps := Pieces(a, Paragraphs(text), l.most);
      ParagraphsPacked(a, Paragraphs(text), l);
      var p := AddParagraphs(a, Paragraphs(text), l);
      if ps != [] {
        var start: nat :| Open(a, ps, p, start, l.target);
        var part := Join(p.cur, "\n\n");
        assert (p.out + [part])[..|p.out|] == p.out;
        assert Part(a, ps, part, "\n\n", start, l.target);
      }
    }
  }
}
