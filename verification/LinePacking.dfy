/** markdownChunks and the point ids of IndexArticle (internal/service/ai_assistant.go). Text is a sequence of bytes,
    as Go's len counts them. */
module LinePacking {
  import opened Text

  // out: finished chunks; cur: the chunk being packed.
  datatype Pack = Pack(out: seq<string>, cur: string)

  const EMPTY := Pack([], "")

  function Add(p: Pack, line: string, size: int): Pack {
    var q := if p.cur != "" && |p.cur| + |line| + 1 > size then Pack(p.out + [p.cur], "") else p;
    Pack(q.out, if q.cur != "" then q.cur + "\n" + line else line)
  }

  function AddAll(lines: seq<string>, size: int): Pack {
    if lines == [] then EMPTY else Add(AddAll(lines[..|lines| - 1], size), lines[|lines| - 1], size)
  }

  // blank: whether strings.TrimSpace leaves nothing.
  function MarkdownChunks(text: string, size: int, blank: string -> bool): seq<string> {
    var p := AddAll(Lines(Unix(text)), size);
    if blank(p.cur) then p.out else p.out + [p.cur]
  }

  function Total(parts: seq<string>): nat {
    if parts == [] then 0 else |parts[0]| + Total(parts[1..])
  }

  lemma {:induction false} TotalPush(parts: seq<string>, last: string)
    ensures Total(parts + [last]) == Total(parts) + |last|
  {
    if parts == [] {
      assert ([] + [last])[1..] == [];
    } else {
      assert (parts + [last])[1..] == parts[1..] + [last];
      TotalPush(parts[1..], last);
    }
  }

  function LongestLine(lines: seq<string>): nat {
    if lines == [] then 0 else Max(LongestLine(lines[..|lines| - 1]), |lines[|lines| - 1]|)
  }

  // ---- the packing bounds ----

  // A chunk and its successor together fill a chunk size.
  ghost predicate Tight(p: Pack, size: int) {
    && (forall i :: 0 < i < |p.out| ==> |p.out[i - 1]| + |p.out[i]| >= size)
    && (p.out != [] ==> |p.out[|p.out| - 1]| + |p.cur| >= size)
  }

  ghost predicate Within(p: Pack, bound: int) {
    (forall i :: 0 <= i < |p.out| ==> 0 < |p.out[i]| <= bound) && |p.cur| <= bound
  }

  lemma {:induction false} AddAllBounds(lines: seq<string>, size: int, bound: int)
    requires size <= bound && 0 <= LongestLine(lines) <= bound
    ensures Tight(AddAll(lines, size), size) && Within(AddAll(lines, size), bound)
  {
    if lines != [] {
      AddAllBounds(lines[..|lines| - 1], size, bound);
    }
  }

  // Every line but the first costs at most its separator beside its length.
  lemma {:induction false} AddAllTotal(lines: seq<string>, size: int)
    ensures lines == [] ==> AddAll(lines, size) == EMPTY
    ensures lines != [] ==> Total(AddAll(lines, size).out) + |AddAll(lines, size).cur| + 1 <= Total(lines) + |lines|
  {
    if lines != [] {
      var init, last := lines[..|lines| - 1], lines[|lines| - 1];
      var p := AddAll(init, size);
      AddAllTotal(init, size);
      TotalPush(p.out, p.cur);
      TotalPush(init, last);
      assert lines == init + [last];
    }
  }

  lemma {:induction false} LinesLength(s: string)
    ensures Total(Lines(s)) + |Lines(s)| == |s| + 1
  {
    if s != "" {
      LinesLength(s[1..]);
      var rest := Lines(s[1..]);
      if s[0] == '\n' {
        assert ([""] + rest)[1..] == rest;
      } else {
        assert ([[s[0]] + rest[0]] + rest[1..])[1..] == rest[1..];
      }
    }
  }

  lemma {:induction false} UnixShrinks(s: string)
    ensures |Unix(s)| <= |s|
    decreases |s|
  {
    if s != "" {
      if |s| >= 2 && s[0] == '\r' && s[1] == '\n' {
        UnixShrinks(s[2..]);
      } else {
        UnixShrinks(s[1..]);
      }
    }
  }

  lemma HalfStep(n: nat, size: nat)
    requires n >= 2
    ensures n / 2 * size == (n - 2) / 2 * size + size
  {
    assert n / 2 == (n - 2) / 2 + 1;
  }

  // Pairs of neighbours fill a chunk size each, so the total bounds the number of chunks.
  lemma {:induction false} PairsBoundCount(parts: seq<string>, size: nat)
    requires forall i :: 0 < i < |parts| ==> |parts[i - 1]| + |parts[i]| >= size
    ensures |parts| / 2 * size <= Total(parts)
  {
    if |parts| >= 2 {
      PairsBoundCount(parts[2..], size);
      assert parts[1..][1..] == parts[2..];
      HalfStep(|parts|, size);
      assert |parts[0]| + |parts[1]| >= size;
    }
  }

  lemma MulMonotone(x: nat, y: nat, size: nat)
    requires x <= y
    ensures x * size <= y * size
  {
  }

  lemma MulCompare(x: nat, y: nat, size: nat)
    requires x * size < (y + 1) * size
    ensures x <= y
  {
    if x > y {
      MulMonotone(y + 1, x, size);
    }
  }

  lemma CountFromTotal(count: nat, size: nat, total: nat, len: nat)
    requires size > 0 && count / 2 * size <= total <= len
    ensures count <= 2 * (len / size) + 1
  {
    var full := len / size;
    assert len < (full + 1) * size by {
      assert len == full * size + len % size;
    }
    MulCompare(count / 2, full, size);
  }

  ghost predicate Blankness(blank: string -> bool) {
    blank("")
  }

  lemma TotalWithin(text: string, size: int, blank: string -> bool)
    ensures Total(MarkdownChunks(text, size, blank)) <= |text|
  {
    var lines := Lines(Unix(text));
    AddAllTotal(lines, size);
    LinesLength(Unix(text));
    UnixShrinks(text);
    TotalPush(AddAll(lines, size).out, AddAll(lines, size).cur);
  }

  /** For any size: no chunk is empty, none exceeds the size or the longest line, and neighbours together fill it. */
  lemma PackingBounds(text: string, size: int, blank: string -> bool)
    requires Blankness(blank)
    ensures var cs := MarkdownChunks(text, size, blank); var longest := LongestLine(Lines(Unix(text)));
            && (forall i :: 0 <= i < |cs| ==> 0 < |cs[i]| <= if size < longest then longest else size)
            && (forall i :: 0 < i < |cs| ==> |cs[i - 1]| + |cs[i]| >= size)
  {
    var lines := Lines(Unix(text));
    var longest := LongestLine(lines);
    var bound := if size < longest then longest else size;
    AddAllBounds(lines, size, bound);
    CloseBounds(AddAll(lines, size), size, bound, blank);
  }

  // Keeping the rest as the last chunk, unless it is blank.
  lemma CloseBounds(p: Pack, size: int, bound: int, blank: string -> bool)
    requires Blankness(blank) && Tight(p, size) && Within(p, bound)
    ensures var cs := if blank(p.cur) then p.out else p.out + [p.cur];
            && (forall i :: 0 <= i < |cs| ==> 0 < |cs[i]| <= bound)
            && (forall i :: 0 < i < |cs| ==> |cs[i - 1]| + |cs[i]| >= size)
  {
  }

  /** So the number of chunks is at most 2*len/size + 1. */
  lemma PackingCount(text: string, size: nat, blank: string -> bool)
    requires Blankness(blank) && size > 0
    ensures |MarkdownChunks(text, size, blank)| <= 2 * (|text| / size) + 1
  {
    var cs := MarkdownChunks(text, size, blank);
    PackingBounds(text, size, blank);
    TotalWithin(text, size, blank);
    PairsBoundCount(cs, size);
    CountFromTotal(|cs|, size, Total(cs), |text|);
  }

  // ---- nothing but newlines and a blank rest is dropped ----

  function Solid(s: string): string {
    if s == "" then "" else (if s[0] == '\n' then "" else [s[0]]) + Solid(s[1..])
  }

  function SolidOf(parts: seq<string>): string {
    if parts == [] then "" else Solid(parts[0]) + SolidOf(parts[1..])
  }

  lemma {:induction false} SolidConcat(x: string, y: string)
    ensures Solid(x + y) == Solid(x) + Solid(y)
  {
    if x == "" {
      assert x + y == y;
    } else {
      assert (x + y)[1..] == x[1..] + y;
      SolidConcat(x[1..], y);
    }
  }

  lemma {:induction false} SolidPush(parts: seq<string>, last: string)
    ensures SolidOf(parts + [last]) == SolidOf(parts) + Solid(last)
  {
    if parts == [] {
      assert ([] + [last])[1..] == [];
    } else {
      assert (parts + [last])[1..] == parts[1..] + [last];
      SolidPush(parts[1..], last);
    }
  }

  lemma {:induction false} AddAllKeeps(lines: seq<string>, size: int)
    ensures SolidOf(AddAll(lines, size).out) + Solid(AddAll(lines, size).cur) == SolidOf(lines)
  {
    if lines != [] {
      var init, line := lines[..|lines| - 1], lines[|lines| - 1];
      AddAllKeeps(init, size);
      SolidPush(init, line);
      assert lines == init + [line];
      var p := AddAll(init, size);
      if p.cur != "" && |p.cur| + |line| + 1 > size {
        SolidPush(p.out, p.cur);
      } else if p.cur != "" {
        SolidConcat(p.cur + "\n", line);
        SolidConcat(p.cur, "\n");
        assert "\n"[1..] == "";
      }
    }
  }

  lemma {:induction false} SolidOfLines(s: string)
    ensures SolidOf(Lines(s)) == Solid(s)
  {
    if s != "" {
      SolidOfLines(s[1..]);
      var rest := Lines(s[1..]);
      assert rest == [rest[0]] + rest[1..];
      SolidConcat([s[0]], s[1..]);
      assert [s[0]] + s[1..] == s;
    } else {
      assert Lines(s)[1..] == [];
    }
  }

  /** The chunks in order, and the blank rest that is not kept, hold every byte of the text but the line breaks. */
  lemma PackingConserves(text: string, size: int, blank: string -> bool)
    ensures exists rest :: (rest == "" || blank(rest))
                           && SolidOf(MarkdownChunks(text, size, blank)) + Solid(rest) == Solid(Unix(text))
  {
    var lines := Lines(Unix(text));
    AddAllKeeps(lines, size);
    SolidOfLines(Unix(text));
    var p := AddAll(lines, size);
    SolidPush(p.out, p.cur);
    var rest := if blank(p.cur) then p.cur else "";
    assert SolidOf(MarkdownChunks(text, size, blank)) + Solid(rest) == Solid(Unix(text));
  }

  // ---- each chunk is a stretch of lines ----

  predicate AllEmpty(lines: seq<string>) {
    forall i :: 0 <= i < |lines| ==> lines[i] == ""
  }

  // The last part is the lines from start to end; only empty lines follow it.
  predicate Ends(lines: seq<string>, part: string, start: nat, end: nat) {
    start < end <= |lines| && part == Join(lines[start..end], "\n") && AllEmpty(lines[end..])
  }

  // Each part is a stretch of consecutive lines with their line breaks; the stretches follow one another with nothing
  // but empty lines between them.
  ghost predicate Tiles(lines: seq<string>, parts: seq<string>)
    decreases |parts|
  {
    if parts == [] then AllEmpty(lines)
    else
      var last, init := parts[|parts| - 1], parts[..|parts| - 1];
      exists start: nat, end: nat :: Ends(lines, last, start, end) && Tiles(lines[..start], init)
  }

  lemma {:induction false} JoinPush(parts: seq<string>, last: string)
    requires parts != []
    ensures Join(parts + [last], "\n") == Join(parts, "\n") + "\n" + last
  {
    assert (parts + [last])[1..] == parts[1..] + [last];
    if |parts| > 1 {
      JoinPush(parts[1..], last);
    } else {
      assert parts[1..] + [last] == [last];
    }
  }

  lemma TilesClose(lines: seq<string>, parts: seq<string>, start: nat)
    requires start < |lines| && Tiles(lines[..start], parts)
    ensures Tiles(lines, parts + [Join(lines[start..], "\n")])
  {
    var part := Join(lines[start..], "\n");
    assert lines[start..|lines|] == lines[start..];
    assert Ends(lines, part, start, |lines|);
    assert (parts + [part])[..|parts|] == parts && (parts + [part])[|parts|] == part;
  }

  lemma TilesBlank(lines: seq<string>, parts: seq<string>)
    requires Tiles(lines, parts)
    ensures Tiles(lines + [""], parts)
  {
    if parts != [] {
      var last, init := parts[|parts| - 1], parts[..|parts| - 1];
      var start: nat, end: nat :| Ends(lines, last, start, end) && Tiles(lines[..start], init);
      assert (lines + [""])[end..] == lines[end..] + [""];
      assert (lines + [""])[start..end] == lines[start..end];
      assert (lines + [""])[..start] == lines[..start];
      assert Ends(lines + [""], last, start, end);
    }
  }

  lemma JoinOfTwo(ls: seq<string>)
    requires |ls| > 1
    ensures Join(ls, "\n") != ""
  {
    assert Join(ls, "\n") == ls[0] + "\n" + Join(ls[1..], "\n");
  }

  // Only a single empty line joins to nothing.
  lemma EmptyJoin(ls: seq<string>)
    requires ls != [] && Join(ls, "\n") == ""
    ensures ls == [""]
  {
    if |ls| > 1 {
      JoinOfTwo(ls);
    }
  }

  // What is packed so far: finished parts up to a line, and the open part from there on.
  ghost predicate Packed(lines: seq<string>, p: Pack, start: nat) {
    start < |lines| && p.cur == Join(lines[start..], "\n") && Tiles(lines[..start], p.out)
  }

  lemma PackedOn(init: seq<string>, line: string, p: Pack, size: int, before: nat) returns (start: nat)
    requires Packed(init, p, before)
    ensures Packed(init + [line], Add(p, line, size), start)
  {
    var lines := init + [line];
    assert lines[..|init|] == init && lines[|init|..] == [line];
    if p.cur == "" {
      EmptyJoin(init[before..]);
      assert init == init[..before] + [""];
      TilesBlank(init[..before], p.out);
      start := |init|;
    } else if |p.cur| + |line| + 1 > size {
      TilesClose(init, p.out, before);
      start := |init|;
    } else {
      JoinPush(init[before..], line);
      assert lines[before..] == init[before..] + [line];
      assert lines[..before] == init[..before];
      start := before;
    }
  }

  lemma {:induction false} AddAllPacked(lines: seq<string>, size: int) returns (start: nat)
    requires lines != []
    ensures Packed(lines, AddAll(lines, size), start)
  {
    var n := |lines| - 1;
    assert lines == lines[..n] + [lines[n]];
    if n == 0 {
      start := 0;
      assert AddAll([], size) == EMPTY;
    } else {
      var before := AddAllPacked(lines[..n], size);
      start := PackedOn(lines[..n], lines[n], AddAll(lines[..n], size), size, before);
    }
  }

  // The chunks of these lines: tiled up to a line, and the rest from there on unless it is blank.
  ghost predicate ChunksUpTo(lines: seq<string>, cs: seq<string>, blank: string -> bool, start: nat)
    requires start < |lines|
  {
    var rest := Join(lines[start..], "\n");
    if blank(rest) then Tiles(lines[..start], cs)
    else cs != [] && cs[|cs| - 1] == rest && Tiles(lines[..start], cs[..|cs| - 1])
  }

  /** Every chunk is a stretch of consecutive lines of the text with their line breaks; the stretches follow one another
      with nothing but empty lines between them, up to the last line. The last stretch is left out if it is blank. */
  lemma ChunksAreStretches(text: string, size: int, blank: string -> bool) returns (start: nat)
    ensures start < |Lines(Unix(text))|
    ensures ChunksUpTo(Lines(Unix(text)), MarkdownChunks(text, size, blank), blank, start)
  {
    var lines := Lines(Unix(text));
    start := AddAllPacked(lines, size);
    var p := AddAll(lines, size);
    assert (p.out + [p.cur])[..|p.out|] == p.out;
  }

  method PackLines(text: string, size: int, blank: string -> bool) returns (out: seq<string>)
    ensures out == MarkdownChunks(text, size, blank)
  {
    var lines := Lines(Unix(text));
    out := [];
    var cur := "";
    var i := 0;
    while i < |lines|
      invariant 0 <= i <= |lines|
      invariant Pack(out, cur) == AddAll(lines[..i], size)
    {
      assert lines[..i + 1][..i] == lines[..i];
      if cur != "" && |cur| + |lines[i]| + 1 > size {
        out := out + [cur];
        cur := "";
      }
      if cur != "" {
        cur := cur + "\n";
      }
      cur := cur + lines[i];
      i := i + 1;
    }
    assert lines[..i] == lines;
    if !blank(cur) {
      out := out + [cur];
    }
  }

  // ---- point ids ----

  const TWO64: nat := 0x1_0000_0000_0000_0000
  const SLOTS: nat := 1000000
  const CHUNK_SIZE: nat := 1200
  const MEDIUMTEXT: nat := 16777215

  function PointId(article: nat, chunk: nat): nat {
    (article * SLOTS % TWO64 + chunk) % TWO64
  }

  /** A point whose id fits in 64 bits has as its id the article times a million plus the chunk; so two of them
      have the same id exactly when they are the same chunk of the same article. */
  lemma PointIdsDistinct(a: nat, i: nat, b: nat, j: nat)
    requires a * SLOTS + i < TWO64 && b * SLOTS + j < TWO64 && i < SLOTS && j < SLOTS
    ensures PointId(a, i) == 1000000 * a + i
    ensures PointId(a, i) == PointId(b, j) <==> a == b && i == j
  {
    assert PointId(a, i) == a * SLOTS + i && PointId(b, j) == b * SLOTS + j;
    if a < b {
      assert (a + 1) * SLOTS <= b * SLOTS;
    } else if b < a {
      assert (b + 1) * SLOTS <= a * SLOTS;
    }
  }

  // No two of the slots of the articles from 1, the first id there is, up to top share an id.
  ghost predicate Injective(top: nat) {
    forall a: nat, i: nat, b: nat, j: nat ::
      1 <= a <= top && 1 <= b <= top && i < SLOTS && j < SLOTS && PointId(a, i) == PointId(b, j) ==> a == b && i == j
  }

  // The last article whose product fits in 64 bits; its last slots do not.
  const LAST_FIT: nat := 18446744073709

  lemma LastFit(article: nat)
    ensures article * SLOTS < TWO64 <==> article <= LAST_FIT
  {
  }

  // Ids of the last fitting article that wrap land on slots of article 0.
  lemma WrapsBelow(article: nat, chunk: nat)
    requires article <= LAST_FIT && chunk < SLOTS
    ensures article * SLOTS + chunk < TWO64 ==> PointId(article, chunk) == article * SLOTS + chunk
    ensures article * SLOTS + chunk >= TWO64 ==>
              article == LAST_FIT && PointId(article, chunk) == article * SLOTS + chunk - TWO64 < SLOTS
  {
    LastFit(article);
    if article < LAST_FIT {
      assert (article + 1) * SLOTS <= LAST_FIT * SLOTS;
    }
    if article * SLOTS + chunk >= TWO64 {
      assert (article * SLOTS + chunk) % TWO64 == article * SLOTS + chunk - TWO64;
    }
  }

  lemma FittingDistinct(a: nat, i: nat, b: nat, j: nat)
    requires 1 <= a <= LAST_FIT && 1 <= b <= LAST_FIT && i < SLOTS && j < SLOTS && PointId(a, i) == PointId(b, j)
    ensures a == b && i == j
  {
    WrapsBelow(a, i);
    WrapsBelow(b, j);
    if a * SLOTS + i < TWO64 && b * SLOTS + j < TWO64 {
      PointIdsDistinct(a, i, b, j);
    }
  }

  /** All slots of all articles up to one have distinct ids if and only if that one's product fits in 64 bits. */
  lemma InjectiveExactly(top: nat)
    ensures Injective(top) <==> top * SLOTS < TWO64
  {
    LastFit(top);
    if top <= LAST_FIT {
      forall a: nat, i: nat, b: nat, j: nat |
        1 <= a <= top && 1 <= b <= top && i < SLOTS && j < SLOTS && PointId(a, i) == PointId(b, j)
        ensures a == b && i == j
      {
        FittingDistinct(a, i, b, j);
      }
    } else {
      assert PointId(18446744073710, 551616) == 1000000 == PointId(1, 0);
    }
  }

  // The points IndexArticle makes of a content: one for each chunk, or one for the whole when there is no chunk.
  function Points(content: string, blank: string -> bool): nat {
    var n := |MarkdownChunks(content, CHUNK_SIZE, blank)|;
    if n == 0 then 1 else n
  }

  /** Content that fits its column, of at most 16777215 bytes, takes at most 27963 of the 1000000 slots. */
  lemma ChunksFitSlots(content: string, blank: string -> bool)
    requires Blankness(blank) && |content| <= MEDIUMTEXT
    ensures Points(content, blank) <= 27963 < SLOTS
  {
    PackingCount(content, CHUNK_SIZE, blank);
    assert |content| / CHUNK_SIZE <= 13981;
  }

  /** So the points of stored articles are distinct for every article whose product fits in 64 bits, the last one
      included. */
  lemma StoredPointsDistinct(a: nat, x: string, i: nat, b: nat, y: string, j: nat, blank: string -> bool)
    requires Blankness(blank) && |x| <= MEDIUMTEXT && |y| <= MEDIUMTEXT
    requires a * SLOTS < TWO64 && b * SLOTS < TWO64 && i < Points(x, blank) && j < Points(y, blank)
    ensures PointId(a, i) == PointId(b, j) <==> a == b && i == j
  {
    ChunksFitSlots(x, blank);
    ChunksFitSlots(y, blank);
    assert a <= 18446744073709 && b <= 18446744073709;
    PointIdsDistinct(a, i, b, j);
  }

  /** Beyond that range ids do collide: articles 2^58 apart share all their points. */
  lemma WrappedIdsCollide(article: nat, chunk: nat)
    ensures PointId(article + 0x400_0000_0000_0000, chunk) == PointId(article, chunk)
  {
    assert 0x400_0000_0000_0000 * SLOTS == 15625 * TWO64;
    assert (article + 0x400_0000_0000_0000) * SLOTS == article * SLOTS + 15625 * TWO64;
    ModAdd(article * SLOTS, 15625);
  }

  lemma {:induction false} ModAdd(x: nat, k: nat)
    ensures (x + k * TWO64) % TWO64 == x % TWO64
  {
    if k > 0 {
      ModAdd(x, k - 1);
      assert x + k * TWO64 == (x + (k - 1) * TWO64) + TWO64;
    }
  }
}
