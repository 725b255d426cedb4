/** The lexical encoder (internal/service/markdown_chunker.go): tokens of the lowered text and their sparse vector. */
module Lexical {
  import opened Text

  // ---- tokens ----

  function HanRun(a: Alphabet, s: string): (n: nat)
    ensures n <= |s| && (s != "" && a.han(s[0]) ==> n > 0)
  {
    if s == "" || !a.han(s[0]) then 0 else 1 + HanRun(a, s[1..])
  }

  function WordRun(a: Alphabet, s: string): (n: nat)
    ensures n <= |s| && (s != "" && a.word(s[0]) ==> n > 0)
  {
    if s == "" || !a.word(s[0]) then 0 else 1 + WordRun(a, s[1..])
  }

  // Each rune of a Han run with its successor, the last one alone.
  function Bigrams(run: string): seq<string> {
    if run == "" then [] else [if |run| == 1 then run else run[..2]] + Bigrams(run[1..])
  }

  // lexicalTokens, on the runes of the lowered text.
  function LexicalTokens(a: Alphabet, s: string): seq<string>
    decreases |s|
  {
    if s == "" then []
    else if a.han(s[0]) then Bigrams(s[..HanRun(a, s)]) + LexicalTokens(a, s[HanRun(a, s)..])
    else if a.word(s[0]) then [s[..WordRun(a, s)]] + LexicalTokens(a, s[WordRun(a, s)..])
    else LexicalTokens(a, s[1..])
  }

  // The characters that take part in tokens.
  function Essence(a: Alphabet, s: string): string {
    if s == "" then "" else (if a.han(s[0]) || a.word(s[0]) then [s[0]] else "") + Essence(a, s[1..])
  }

  // First rune of a token that starts with a Han rune, every other token whole.
  function Rebuilt(a: Alphabet, tokens: seq<string>): string {
    if tokens == [] then ""
    else (if tokens[0] != "" && a.han(tokens[0][0]) then tokens[0][..1] else tokens[0]) + Rebuilt(a, tokens[1..])
  }

  lemma {:induction false} RebuiltConcat(a: Alphabet, x: seq<string>, y: seq<string>)
    ensures Rebuilt(a, x + y) == Rebuilt(a, x) + Rebuilt(a, y)
  {
    if x == [] {
      assert x + y == y;
    } else {
      assert (x + y)[1..] == x[1..] + y;
      RebuiltConcat(a, x[1..], y);
    }
  }

  lemma {:induction false} HanRunEssence(a: Alphabet, s: string)
    ensures Essence(a, s) == s[..HanRun(a, s)] + Essence(a, s[HanRun(a, s)..])
  {
    if s == "" || !a.han(s[0]) {
      assert s[..0] == "" && s[0..] == s;
    } else {
      var t := s[1..];
      var k := HanRun(a, t);
      HanRunEssence(a, t);
      calc {
        Essence(a, s);
        [s[0]] + Essence(a, t);
        [s[0]] + (t[..k] + Essence(a, t[k..]));
        { Regroup([s[0]], t[..k], Essence(a, t[k..])); }
        ([s[0]] + t[..k]) + Essence(a, t[k..]);
        { assert s[..k + 1] == [s[0]] + t[..k] && s[k + 1..] == t[k..]; }
        s[..k + 1] + Essence(a, s[k + 1..]);
      }
    }
  }

  lemma RebuiltHan(a: Alphabet, first: string, rest: seq<string>)
    requires first != "" && a.han(first[0])
    ensures Rebuilt(a, [first] + rest) == [first[0]] + Rebuilt(a, rest)
  {
    assert ([first] + rest)[1..] == rest;
    assert first[..1] == [first[0]];
  }

  // The first runes of the bigrams of a Han run spell the run.
  lemma {:induction false} BigramsRebuild(a: Alphabet, run: string)
    requires forall i :: 0 <= i < |run| ==> a.han(run[i])
    ensures Rebuilt(a, Bigrams(run)) == run
  {
    if run != "" {
      BigramsRebuild(a, run[1..]);
      var first := if |run| == 1 then run else run[..2];
      RebuiltHan(a, first, Bigrams(run[1..]));
      assert [run[0]] + run[1..] == run;
    }
  }

  lemma {:induction false} HanRunIsHan(a: Alphabet, s: string)
    ensures forall i :: 0 <= i < HanRun(a, s) ==> a.han(s[i])
  {
    if s != "" && a.han(s[0]) {
      HanRunIsHan(a, s[1..]);
      assert forall i :: 0 < i < |s| ==> s[i] == s[1..][i - 1];
    }
  }

  lemma {:induction false} WordRunEssence(a: Alphabet, s: string)
    ensures Essence(a, s) == s[..WordRun(a, s)] + Essence(a, s[WordRun(a, s)..])
  {
    if s == "" || !a.word(s[0]) {
      assert s[..0] == "" && s[0..] == s;
    } else {
      var t := s[1..];
      var k := WordRun(a, t);
      WordRunEssence(a, t);
      calc {
        Essence(a, s);
        [s[0]] + Essence(a, t);
        [s[0]] + (t[..k] + Essence(a, t[k..]));
        { Regroup([s[0]], t[..k], Essence(a, t[k..])); }
        ([s[0]] + t[..k]) + Essence(a, t[k..]);
        { assert s[..k + 1] == [s[0]] + t[..k] && s[k + 1..] == t[k..]; }
        s[..k + 1] + Essence(a, s[k + 1..]);
      }
    }
  }

  /** The tokens lose nothing: the first rune of each Han-led token and every other token whole spell the token
      characters of the text in order. */
  lemma {:induction false} TokensRebuildText(a: Alphabet, s: string)
    ensures Rebuilt(a, LexicalTokens(a, s)) == Essence(a, s)
    decreases |s|
  {
    if s == "" {
    } else if a.han(s[0]) {
      var n := HanRun(a, s);
      HanRunEssence(a, s);
      HanRunIsHan(a, s);
      BigramsRebuild(a, s[..n]);
      TokensRebuildText(a, s[n..]);
      RebuiltConcat(a, Bigrams(s[..n]), LexicalTokens(a, s[n..]));
    } else if a.word(s[0]) {
      var n := WordRun(a, s);
      WordRunEssence(a, s);
      TokensRebuildText(a, s[n..]);
      assert ([s[..n]] + LexicalTokens(a, s[n..]))[1..] == LexicalTokens(a, s[n..]);
    } else {
      TokensRebuildText(a, s[1..]);
    }
  }

  // ---- the tokens letter by letter ----

  // The token that starts with the first letter: of a Han letter with the next one if that is Han too.
  function First(a: Alphabet, s: string): string
    requires s != ""
  {
    if !a.han(s[0]) then s[..WordRun(a, s)] else if |s| > 1 && a.han(s[1]) then s[..2] else s[..1]
  }

  // Whether a word token is open behind a letter, when one may be open before it.
  predicate StaysOpen(a: Alphabet, c: char, open: bool) {
    a.word(c) && (open || !a.han(c))
  }

  predicate Opens(a: Alphabet, c: char, open: bool) {
    !(open && a.word(c)) && (a.han(c) || a.word(c))
  }

  function Spelled(a: Alphabet, s: string, open: bool): seq<string> {
    if s == "" then []
    else (if Opens(a, s[0], open) then [First(a, s)] else []) + Spelled(a, s[1..], StaysOpen(a, s[0], open))
  }

  lemma {:induction false} SpelledAfterWord(a: Alphabet, s: string)
    ensures Spelled(a, s, true) == Spelled(a, s[WordRun(a, s)..], false)
  {
    var n := WordRun(a, s);
    if n > 0 {
      SpelledAfterWord(a, s[1..]);
      assert s[n..] == s[1..][n - 1..];
    } else {
      assert s[0..] == s;
    }
  }

  lemma FirstBigram(a: Alphabet, s: string)
    requires s != "" && a.han(s[0])
    ensures var n := HanRun(a, s); Bigrams(s[..n]) == [First(a, s)] + Bigrams(s[1..][..n - 1])
  {
    var n := HanRun(a, s);
    assert s[..n][1..] == s[1..][..n - 1];
    if n > 1 {
      assert s[1..] != "" && a.han(s[1..][0]) by {
        assert HanRun(a, s[1..]) > 0;
      }
      assert s[..n][..2] == s[..2];
    } else {
      assert s[..n] == s[..1] && (|s| > 1 ==> !a.han(s[1]));
    }
  }

  lemma RegroupTokens(x: seq<string>, y: seq<string>, z: seq<string>)
    ensures x + (y + z) == (x + y) + z
  {
  }

  // A Han letter opens no word.
  lemma SpelledHan(a: Alphabet, s: string)
    requires s != "" && a.han(s[0])
    ensures Spelled(a, s, false) == [First(a, s)] + Spelled(a, s[1..], false)
  {
    assert Opens(a, s[0], false) && !StaysOpen(a, s[0], false);
  }

  lemma {:induction false} SpelledAfterHan(a: Alphabet, s: string)
    ensures Spelled(a, s, false) == Bigrams(s[..HanRun(a, s)]) + Spelled(a, s[HanRun(a, s)..], false)
  {
    var n := HanRun(a, s);
    if n > 0 {
      var t := s[1..];
      SpelledAfterHan(a, t);
      FirstBigram(a, s);
      SpelledHan(a, s);
      assert s[n..] == t[n - 1..];
      RegroupTokens([First(a, s)], Bigrams(t[..n - 1]), Spelled(a, s[n..], false));
    } else {
      assert s[0..] == s && s[..0] == "";
    }
  }

  lemma {:induction false} TokensSpelled(a: Alphabet, s: string)
    ensures LexicalTokens(a, s) == Spelled(a, s, false)
    decreases |s|
  {
    if s == "" {
    } else if a.han(s[0]) {
      SpelledAfterHan(a, s);
      TokensSpelled(a, s[HanRun(a, s)..]);
    } else if a.word(s[0]) {
      var n := WordRun(a, s);
      SpelledAfterWord(a, s[1..]);
      assert s[n..] == s[1..][n - 1..];
      TokensSpelled(a, s[n..]);
    } else {
      TokensSpelled(a, s[1..]);
    }
  }

  // Whether a word token is open before the i-th letter.
  predicate OpenAt(a: Alphabet, s: string, i: nat, open: bool)
    requires i <= |s|
  {
    if i == 0 then open else StaysOpen(a, s[i - 1], OpenAt(a, s, i - 1, open))
  }

  lemma {:induction false} OpenAtShifts(a: Alphabet, s: string, i: nat, open: bool)
    requires 0 < i <= |s|
    ensures OpenAt(a, s, i, open) == OpenAt(a, s[1..], i - 1, StaysOpen(a, s[0], open))
  {
    if i > 1 {
      OpenAtShifts(a, s, i - 1, open);
      assert s[1..][i - 2] == s[i - 1];
    }
  }

  // The token that starts at a place is among the tokens, behind one for each place before it where one starts.
  lemma {:induction false} SpelledAt(a: Alphabet, s: string, i: nat, open: bool) returns (k: nat)
    requires i < |s| && Opens(a, s[i], OpenAt(a, s, i, open))
    ensures k < |Spelled(a, s, open)| && Spelled(a, s, open)[k] == First(a, s[i..])
  {
    if i == 0 {
      k := 0;
      assert s[0..] == s;
    } else {
      OpenAtShifts(a, s, i, open);
      assert s[1..][i - 1..] == s[i..];
      k := SpelledAt(a, s[1..], i - 1, StaysOpen(a, s[0], open));
      if Opens(a, s[0], open) {
        k := k + 1;
      }
    }
  }

  // The i-th letter is part of a word token that began with another kind of letter.
  predicate InWord(a: Alphabet, s: string, i: nat)
    requires i < |s|
  {
    exists j :: 0 <= j < i && !a.han(s[j]) && forall k :: j <= k <= i ==> a.word(s[k])
  }

  lemma {:induction false} OpenInWord(a: Alphabet, s: string, i: nat)
    requires i < |s|
    ensures a.word(s[i]) && OpenAt(a, s, i, false) ==> InWord(a, s, i)
  {
    if i > 0 && a.word(s[i]) && OpenAt(a, s, i, false) {
      if a.han(s[i - 1]) {
        OpenInWord(a, s, i - 1);
        var j :| 0 <= j < i - 1 && !a.han(s[j]) && forall k :: j <= k <= i - 1 ==> a.word(s[k]);
      } else {
        assert !a.han(s[i - 1]) && forall k :: i - 1 <= k <= i ==> a.word(s[k]);
      }
    }
  }

  /** Each Han letter that is not part of a word gives a token: with the letter behind it if that is Han as well, and
      alone otherwise. */
  lemma HanPairs(a: Alphabet, s: string, i: nat)
    requires i < |s| && a.han(s[i]) && !InWord(a, s, i)
    ensures (if i + 1 < |s| && a.han(s[i + 1]) then [s[i], s[i + 1]] else [s[i]]) in LexicalTokens(a, s)
  {
    OpenInWord(a, s, i);
    TokensSpelled(a, s);
    var k := SpelledAt(a, s, i, false);
    assert Spelled(a, s, false)[k] == First(a, s[i..]);
    assert s[i..][..1] == [s[i]] && (i + 1 < |s| ==> s[i..][..2] == [s[i], s[i + 1]]);
  }

  // ---- tokens against the estimate ----

  // A Han letter right behind another word character, which the word token takes in.
  predicate Swallowed(a: Alphabet, s: string, i: nat) {
    i + 1 < |s| && !a.han(s[i]) && a.word(s[i]) && a.han(s[i + 1]) && a.word(s[i + 1])
  }

  lemma {:induction false} SpelledBelow(a: Alphabet, s: string, open: bool, inWord: bool)
    requires inWord ==> open
    ensures |Spelled(a, s, open)| <= a.TokensFrom(s, inWord)
  {
    if s != "" {
      SpelledBelow(a, s[1..], StaysOpen(a, s[0], open), a.Within(s[0]));
    }
  }

  lemma {:induction false} SpelledEqual(a: Alphabet, s: string, inWord: bool)
    requires inWord && s != "" ==> !(a.han(s[0]) && a.word(s[0]))
    ensures |Spelled(a, s, inWord)| == a.TokensFrom(s, inWord) <==> forall i: nat :: !Swallowed(a, s, i)
  {
    if s != "" {
      var t := s[1..];
      assert forall i: nat :: Swallowed(a, t, i) <==> Swallowed(a, s, i + 1);
      if Swallowed(a, s, 0) {
        SpelledBelow(a, t[1..], true, false);
      } else {
        SpelledEqual(a, t, a.Within(s[0]));
        assert forall i: nat :: Swallowed(a, s, i) ==> i > 0 && Swallowed(a, t, i - 1);
      }
    }
  }

  /** There are never more lexical tokens than the estimate says, and as many exactly when no Han letter stands right
      behind another word character. */
  lemma EstimateBoundsTokens(a: Alphabet, s: string)
    ensures |LexicalTokens(a, s)| <= a.Tokens(s)
    ensures |LexicalTokens(a, s)| == a.Tokens(s) <==> forall i: nat :: !Swallowed(a, s, i)
  {
    TokensSpelled(a, s);
    SpelledBelow(a, s, false, false);
    SpelledEqual(a, s, false);
  }

  // strings.ToLower maps rune by rune and leaves each in its class.
  function Lowered(s: string, lower: char -> char): string {
    if s == "" then "" else [lower(s[0])] + Lowered(s[1..], lower)
  }

  ghost predicate KeepsClasses(a: Alphabet, lower: char -> char) {
    forall c :: a.han(lower(c)) == a.han(c) && a.word(lower(c)) == a.word(c)
  }

  lemma {:induction false} LoweredEstimate(a: Alphabet, s: string, lower: char -> char, inWord: bool)
    requires KeepsClasses(a, lower)
    ensures a.TokensFrom(Lowered(s, lower), inWord) == a.TokensFrom(s, inWord)
  {
    if s != "" {
      LoweredEstimate(a, s[1..], lower, a.Within(s[0]));
      assert Lowered(s, lower)[1..] == Lowered(s[1..], lower);
    }
  }

  lemma {:induction false} LoweredAt(s: string, lower: char -> char)
    ensures |Lowered(s, lower)| == |s| && forall i :: 0 <= i < |s| ==> Lowered(s, lower)[i] == lower(s[i])
  {
    if s != "" {
      LoweredAt(s[1..], lower);
    }
  }

  /** The tokens of a text, taken from it lowered, against the estimate of the text as written. */
  lemma EstimateBoundsLowered(a: Alphabet, s: string, lower: char -> char)
    requires KeepsClasses(a, lower)
    ensures |LexicalTokens(a, Lowered(s, lower))| <= a.Tokens(s)
    ensures |LexicalTokens(a, Lowered(s, lower))| == a.Tokens(s) <==> forall i: nat :: !Swallowed(a, s, i)
  {
    EstimateBoundsTokens(a, Lowered(s, lower));
    LoweredEstimate(a, s, lower, false);
    LoweredAt(s, lower);
    assert forall i: nat :: Swallowed(a, Lowered(s, lower), i) <==> Swallowed(a, s, i);
  }

  method AppendBigrams(before: seq<string>, runes: string, start: nat, stop: nat) returns (tokens: seq<string>)
    requires start <= stop <= |runes|
    ensures tokens == before + Bigrams(runes[start..stop])
  {
    tokens := before;
    var j := start;
    while j < stop
      invariant start <= j <= stop
      invariant tokens + Bigrams(runes[j..stop]) == before + Bigrams(runes[start..stop])
    {
      var end := if j + 2 > stop then stop else j + 2;
      assert runes[j..stop][1..] == runes[j + 1..stop];
      assert stop - j > 1 ==> runes[j..stop][..2] == runes[j..end];
      assert Bigrams(runes[j..stop]) == [runes[j..end]] + Bigrams(runes[j + 1..stop]);
      tokens := tokens + [runes[j..end]];
      j := j + 1;
    }
  }

  // The end of the Han run that begins here.
  method HanEnd(a: Alphabet, runes: string, start: nat) returns (i: nat)
    requires start <= |runes|
    ensures i == start + HanRun(a, runes[start..])
  {
    i := start;
    while i < |runes| && a.han(runes[i])
      invariant start <= i <= |runes|
      invariant HanRun(a, runes[start..]) == i - start + HanRun(a, runes[i..])
    {
      assert runes[i..][1..] == runes[i + 1..];
      i := i + 1;
    }
  }

  method WordEnd(a: Alphabet, runes: string, start: nat) returns (i: nat)
    requires start <= |runes|
    ensures i == start + WordRun(a, runes[start..])
  {
    i := start;
    while i < |runes| && a.word(runes[i])
      invariant start <= i <= |runes|
      invariant WordRun(a, runes[start..]) == i - start + WordRun(a, runes[i..])
    {
      assert runes[i..][1..] == runes[i + 1..];
      i := i + 1;
    }
  }

  // The tokens of the first run of what is left, and then the rest.
  lemma TokensOfRun(a: Alphabet, s: string, start: nat, i: nat, before: seq<string>)
    requires start < |s| && i <= |s|
    requires i == if a.han(s[start]) then start + HanRun(a, s[start..])
                  else if a.word(s[start]) then start + WordRun(a, s[start..])
                  else start + 1
    ensures start < i
    ensures var run := if a.han(s[start]) then Bigrams(s[start..i]) else if a.word(s[start]) then [s[start..i]] else [];
            before + LexicalTokens(a, s[start..]) == (before + run) + LexicalTokens(a, s[i..])
  {
    var rest := s[start..];
    assert rest[0] == s[start];
    assert rest[..i - start] == s[start..i] && rest[i - start..] == s[i..];
  }

  method ComputeTokens(a: Alphabet, runes: string) returns (tokens: seq<string>)
    ensures tokens == LexicalTokens(a, runes)
  {
    tokens := [];
    var i := 0;
    while i < |runes|
      invariant 0 <= i <= |runes|
      invariant tokens + LexicalTokens(a, runes[i..]) == LexicalTokens(a, runes)
    {
      var start := i;
      if a.han(runes[i]) {
        i := HanEnd(a, runes, start);
        TokensOfRun(a, runes, start, i, tokens);
        tokens := AppendBigrams(tokens, runes, start, i);
        continue;
      }
      if a.word(runes[i]) {
        i := WordEnd(a, runes, start);
        TokensOfRun(a, runes, start, i, tokens);
        tokens := tokens + [runes[start..i]];
        continue;
      }
      TokensOfRun(a, runes, start, i + 1, tokens);
      i := i + 1;
    }
  }

  // ---- the sparse vector ----

  datatype SparseVector = SparseVector(indices: seq<nat>, values: seq<real>)

  predicate Increasing(xs: seq<nat>) {
    forall i, j :: 0 <= i < j < |xs| ==> xs[i] < xs[j]
  }

  function Weight(count: nat): real {
    1.0 + (count as real - 1.0) * 0.5
  }

  // What the vector of a multiset of token hashes has to be.
  ghost predicate Encodes(v: SparseVector, hashes: multiset<nat>) {
    && |v.indices| == |v.values| && Increasing(v.indices)
    && (forall x :: x in v.indices <==> x in hashes)
    && (forall i :: 0 <= i < |v.indices| ==> v.values[i] == Weight(hashes[v.indices[i]]))
  }

  lemma {:induction false} NoLonger(x: seq<nat>, y: seq<nat>)
    requires Increasing(x) && Increasing(y) && forall e :: e in x ==> e in y
    ensures |x| <= |y|
  {
    if x != [] {
      var last := x[|x| - 1];
      assert last in y;
      var k :| 0 <= k < |y| && y[k] == last;
      forall e | e in x[..|x| - 1]
        ensures e in y[..k]
      {
        assert e in x && e < last;
        var j :| 0 <= j < |y| && y[j] == e;
        assert j < k;
      }
      NoLonger(x[..|x| - 1], y[..k]);
    }
  }

  lemma {:induction false} IncreasingUnique(x: seq<nat>, y: seq<nat>)
    requires Increasing(x) && Increasing(y) && forall e :: e in x <==> e in y
    ensures x == y
  {
    NoLonger(y, x);
    if x != [] {
      assert x[|x| - 1] in y;
      var a, b := x[|x| - 1], y[|y| - 1];
      assert b in x;
      assert a == b;
      var x', y' := x[..|x| - 1], y[..|y| - 1];
      assert forall e :: e in x' <==> e in x && e != a;
      assert forall e :: e in y' <==> e in y && e != b;
      IncreasingUnique(x', y');
      assert x == x' + [a] && y == y' + [b];
    }
  }

  /** The encoding is canonical: the multiset of token hashes determines the vector, whatever order the counts were
      visited in. */
  lemma EncodingCanonical(v: SparseVector, w: SparseVector, hashes: multiset<nat>)
    requires Encodes(v, hashes) && Encodes(w, hashes)
    ensures v == w
  {
    IncreasingUnique(v.indices, w.indices);
    assert forall i :: 0 <= i < |v.values| ==> v.values[i] == w.values[i];
  }

  function SumOf(values: seq<real>): real {
    if values == [] then 0.0 else SumOf(values[..|values| - 1]) + values[|values| - 1]
  }

  function CountsAt(hashes: multiset<nat>, indices: seq<nat>): nat {
    if indices == [] then 0 else CountsAt(hashes, indices[..|indices| - 1]) + hashes[indices[|indices| - 1]]
  }

  lemma {:induction false} CountsAtSame(m: multiset<nat>, n: multiset<nat>, indices: seq<nat>)
    requires forall i :: 0 <= i < |indices| ==> m[indices[i]] == n[indices[i]]
    ensures CountsAt(m, indices) == CountsAt(n, indices)
  {
    if indices != [] {
      CountsAtSame(m, n, indices[..|indices| - 1]);
    }
  }

  // The counts at the distinct indices make up the whole multiset.
  lemma {:induction false} CountsAtAll(hashes: multiset<nat>, indices: seq<nat>)
    requires Increasing(indices) && forall x :: x in indices <==> x in hashes
    ensures CountsAt(hashes, indices) == |hashes|
    decreases |indices|
  {
    if indices == [] {
      assert hashes == multiset{};
    } else {
      var init, last := indices[..|indices| - 1], indices[|indices| - 1];
      var rest := hashes[last := 0];
      assert indices == init + [last];
      assert last !in init;
      assert forall x :: x in init <==> x in rest;
      CountsAtAll(rest, init);
      CountsAtSame(rest, hashes, init);
      assert hashes == rest[last := hashes[last]];
    }
  }

  lemma {:induction false} SumOfWeights(hashes: multiset<nat>, indices: seq<nat>, values: seq<real>)
    requires |indices| == |values| && forall i :: 0 <= i < |indices| ==> values[i] == Weight(hashes[indices[i]])
    ensures 2.0 * SumOf(values) == (CountsAt(hashes, indices) + |indices|) as real
  {
    if indices != [] {
      var n := |indices| - 1;
      SumOfWeights(hashes, indices[..n], values[..n]);
      assert 2.0 * Weight(hashes[indices[n]]) == (hashes[indices[n]] + 1) as real;
    }
  }

  /** Twice the sum of the values is the number of tokens plus the number of distinct indices. */
  lemma EncodingWeight(v: SparseVector, hashes: multiset<nat>)
    requires Encodes(v, hashes)
    ensures 2.0 * SumOf(v.values) == (|hashes| + |v.indices|) as real
  {
    SumOfWeights(hashes, v.indices, v.values);
    CountsAtAll(hashes, v.indices);
  }

  // ---- the method ----

  // sort.Slice with <.
  method SortIndices(xs: seq<nat>) returns (ys: seq<nat>)
    requires forall i, j :: 0 <= i < j < |xs| ==> xs[i] != xs[j]
    ensures Increasing(ys) && forall e :: e in ys <==> e in xs
  {
    ys := [];
    var i := 0;
    while i < |xs|
      invariant 0 <= i <= |xs| && Increasing(ys)
      invariant forall e :: e in ys <==> e in xs[..i]
    {
      assert xs[i] !in xs[..i];
      ys := Place(ys, xs[i]);
      assert xs[..i + 1] == xs[..i] + [xs[i]];
      i := i + 1;
    }
    assert xs[..i] == xs;
  }

  lemma Inserted(ys: seq<nat>, k: nat, x: nat)
    requires Increasing(ys) && k <= |ys| && (forall i :: 0 <= i < k ==> ys[i] < x) && (k < |ys| ==> x < ys[k])
    ensures var zs := ys[..k] + [x] + ys[k..]; Increasing(zs) && forall e :: e in zs <==> e in ys || e == x
  {
    var zs := ys[..k] + [x] + ys[k..];
    forall i, j | 0 <= i < j < |zs|
      ensures zs[i] < zs[j]
    {
      assert zs[i] == if i < k then ys[i] else if i == k then x else ys[i - 1];
      assert zs[j] == if j < k then ys[j] else if j == k then x else ys[j - 1];
      assert k < |ys| && j > k ==> ys[k] <= ys[j - 1];
    }
    assert ys == ys[..k] + ys[k..];
  }

  method Place(ys: seq<nat>, x: nat) returns (zs: seq<nat>)
    requires Increasing(ys) && x !in ys
    ensures Increasing(zs) && forall e :: e in zs <==> e in ys || e == x
  {
    var k := 0;
    while k < |ys| && ys[k] < x
      invariant 0 <= k <= |ys| && forall i :: 0 <= i < k ==> ys[i] < x
    {
      k := k + 1;
    }
    zs := ys[..k] + [x] + ys[k..];
    Inserted(ys, k, x);
  }

  method CountHashes(tokens: seq<string>, hash: string -> nat) returns (counts: map<nat, nat>)
    ensures Counted(counts, Hashes(tokens, hash))
  {
    counts := map[];
    var i := 0;
    while i < |tokens|
      invariant 0 <= i <= |tokens|
      invariant Counted(counts, Hashes(tokens[..i], hash))
    {
      assert tokens[..i + 1][..i] == tokens[..i];
      var h := hash(tokens[i]);
      CountedOneMore(counts, Hashes(tokens[..i], hash), h);
      counts := counts[h := (if h in counts then counts[h] else 0) + 1];
      i := i + 1;
    }
    assert tokens[..i] == tokens;
  }

  lemma CountedOneMore(counts: map<nat, nat>, hashes: multiset<nat>, h: nat)
    requires Counted(counts, hashes)
    ensures Counted(counts[h := (if h in counts then counts[h] else 0) + 1], hashes + multiset{h})
  {
  }

  lemma EncodedBy(counts: map<nat, nat>, hashes: multiset<nat>, indices: seq<nat>, values: seq<real>)
    requires Counted(counts, hashes) && Increasing(indices) && |values| == |indices|
    requires forall x :: x in indices <==> x in counts
    requires forall i :: 0 <= i < |indices| ==> indices[i] in counts && values[i] == Weight(counts[indices[i]])
    ensures Encodes(SparseVector(indices, values), hashes)
  {
  }

  // hash: fnv32; runes: the lowered text.
  method EncodeLexical(a: Alphabet, runes: string, hash: string -> nat) returns (v: SparseVector)
    ensures Encodes(v, Hashes(LexicalTokens(a, runes), hash))
  {
    var tokens := ComputeTokens(a, runes);
    var counts := CountHashes(tokens, hash);
    var indices := KeysInAnyOrder(counts);
    indices := SortIndices(indices);
    var values := Weights(indices, counts);
    EncodedBy(counts, Hashes(tokens, hash), indices, values);
    v := SparseVector(indices, values);
  }

  // The last loop of EncodeLexical.
  method Weights(indices: seq<nat>, counts: map<nat, nat>) returns (values: seq<real>)
    requires forall x :: x in indices ==> x in counts && counts[x] > 0
    ensures |values| == |indices|
    ensures forall i :: 0 <= i < |indices| ==> values[i] == Weight(counts[indices[i]])
  {
    values := [];
    var i := 0;
    while i < |indices|
      invariant 0 <= i <= |indices| && |values| == i
      invariant forall j :: 0 <= j < i ==> values[j] == Weight(counts[indices[j]])
    {
      var value := 1.0;
      if counts[indices[i]] > 1 {
        value := value + (counts[indices[i]] - 1) as real * 0.5;
      }
      values := values + [value];
      i := i + 1;
    }
  }

  ghost function Hashes(tokens: seq<string>, hash: string -> nat): multiset<nat> {
    if tokens == [] then multiset{} else Hashes(tokens[..|tokens| - 1], hash) + multiset{hash(tokens[|tokens| - 1])}
  }

  ghost predicate Counted(counts: map<nat, nat>, hashes: multiset<nat>) {
    forall x :: (x in counts <==> x in hashes) && (x in counts ==> counts[x] == hashes[x] > 0)
  }

  method KeysInAnyOrder(counts: map<nat, nat>) returns (keys: seq<nat>)
    ensures forall x :: x in keys <==> x in counts
    ensures forall i, j :: 0 <= i < j < |keys| ==> keys[i] != keys[j]
  {
    keys := [];
    var left := counts.Keys;
    while left != {}
      invariant left <= counts.Keys
      invariant forall x :: x in keys <==> x in counts && x !in left
      invariant forall i, j :: 0 <= i < j < |keys| ==> keys[i] != keys[j]
      decreases |left|
    {
      var k :| k in left;
      keys := keys + [k];
      left := left - {k};
    }
  }

  lemma {:induction false} HashesCount(tokens: seq<string>, hash: string -> nat)
    ensures |Hashes(tokens, hash)| == |tokens|
    ensures forall x :: x in Hashes(tokens, hash) <==> exists t :: t in tokens && hash(t) == x
  {
    if tokens != [] {
      var init, last := tokens[..|tokens| - 1], tokens[|tokens| - 1];
      HashesCount(init, hash);
      assert tokens == init + [last];
      forall x
        ensures x in Hashes(tokens, hash) <==> exists t :: t in tokens && hash(t) == x
      {
        if t :| t in tokens && hash(t) == x {
          assert t in init || t == last;
        }
        if x in Hashes(init, hash) {
          var t :| t in init && hash(t) == x;
          assert t in tokens;
        }
        assert last in tokens;
      }
    }
  }

  /** For the vector of a text: its indices are the hashes of the tokens; twice its sum is the token count plus the
      number of indices, and at most the estimate of the text as written plus that number. */
  lemma EncodedText(a: Alphabet, text: string, lower: char -> char, hash: string -> nat, v: SparseVector)
    requires KeepsClasses(a, lower) && Encodes(v, Hashes(LexicalTokens(a, Lowered(text, lower)), hash))
    ensures forall x :: x in v.indices <==> exists t :: t in LexicalTokens(a, Lowered(text, lower)) && hash(t) == x
    ensures 2.0 * SumOf(v.values) == (|LexicalTokens(a, Lowered(text, lower))| + |v.indices|) as real
    ensures 2.0 * SumOf(v.values) <= (a.Tokens(text) + |v.indices|) as real
  {
    var tokens := LexicalTokens(a, Lowered(text, lower));
    EncodingWeight(v, Hashes(tokens, hash));
    HashesCount(tokens, hash);
    EstimateBoundsLowered(a, text, lower);
  }
}
