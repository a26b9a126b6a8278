/** The loops of `reply` (pyborg.py:376-573) written as the source runs
    them, each proved to compute its function in module Generation. */
module Replying {
  import opened Text
  import opened Knowledge
  import opened Generation

  // ---------------------------------------------------------------------
  // Input and seed (pyborg.py:380-414)

  /** `body.split()`, then every piece split again (pyborg.py:381-385):
      the second split gives each token back unchanged. */
  method Tokens(body: string) returns (toks: seq<string>)
    ensures toks == Split(body)
  {
    var pieces := Split(body);
    toks := [];
    for i := 0 to |pieces|
      invariant toks == pieces[..i]
    {
      SplitJoin([pieces[i]]);
      toks := toks + Split(pieces[i]);
    }
  }

  /** The filtered input grows by its next word when that word passes the filter. */
  lemma CandidatesNext(toks: seq<string>, ignore: seq<string>, i: nat)
    requires i < |toks|
    ensures Candidates(toks[..i + 1], ignore) ==
            Candidates(toks[..i], ignore) + (if toks[i] !in ignore && !IsNumeric(toks[i]) then [toks[i]] else [])
  {
    assert toks[..i + 1][..i] == toks[..i];
  }

  /** How one more candidate changes the smallest count and the seed list:
      a new minimum restarts the list, a tie joins it, anything else leaves
      both alone. */
  lemma {:induction false} SeedStep(words: Index, xs: seq<string>, x: string)
    ensures var m := MinCount(words, xs);
            var ys := xs + [x];
            if x in words && (m == -1 || |words[x]| < m) && |words[x]| > 3 then
              MinCount(words, ys) == |words[x]| && Ties(words, ys, |words[x]|) == [x]
            else if x in words && |words[x]| == m then
              MinCount(words, ys) == m && Ties(words, ys, m) == Ties(words, xs, m) + [x]
            else
              MinCount(words, ys) == m && Ties(words, ys, m) == Ties(words, xs, m)
  {
    var m := MinCount(words, xs);
    var ys := xs + [x];
    assert ys[..|ys| - 1] == xs;
    MinCountIsMin(words, xs);
    if x in words && (m == -1 || |words[x]| < m) && |words[x]| > 3 {
      TiesNone(words, xs, |words[x]|);
    } else if x in words && |words[x]| == m {
      var y :| y in xs && Eligible(words, y) && |words[y]| == m;
      assert Eligible(words, x);
    }
  }

  /** The rarest-word loop (pyborg.py:395-410) over the filtered input:
      `index` ends as the eligible candidates with the fewest contexts. */
  method RarestWords(words: Index, ignore: seq<string>, toks: seq<string>) returns (index: seq<string>)
    ensures index == Ties(words, Candidates(toks, ignore), MinCount(words, Candidates(toks, ignore)))
  {
    index := [];
    var known := -1;
    for i := 0 to |toks|
      invariant known == MinCount(words, Candidates(toks[..i], ignore))
      invariant index == Ties(words, Candidates(toks[..i], ignore), known)
    {
      var x := toks[i];
      ghost var cs := Candidates(toks[..i], ignore);
      CandidatesNext(toks, ignore, i);
      if x in ignore || IsNumeric(x) {
        assert Candidates(toks[..i + 1], ignore) == cs;
        continue;
      }
      assert Candidates(toks[..i + 1], ignore) == cs + [x];
      SeedStep(words, cs, x);
      if x !in words {
        continue;
      }
      var k := |words[x]|;
      if (known == -1 || k < known) && k > 3 {
        index := [x];
        known := k;
      } else if k == known {
        index := index + [x];
      }
    }
    assert toks[..|toks|] == toks;
  }

  // ---------------------------------------------------------------------
  // Tallies (pyborg.py:420-448, 498-522)

  /** A failed backward tally stays failed with more references. */
  lemma {:induction false} BackTallyFails(lines: map<int, Line>, ignore: seq<string>, sentence: seq<string>, refs: seq<Ref>, m: nat, n: nat)
    requires m <= n <= |refs|
    requires BackTally(lines, ignore, sentence, refs[..m]).Err?
    ensures BackTally(lines, ignore, sentence, refs[..n]) == BackTally(lines, ignore, sentence, refs[..m])
    decreases n
  {
    if m < n {
      BackTallyFails(lines, ignore, sentence, refs, m, n - 1);
      assert refs[..n][..n - 1] == refs[..n - 1];
    }
  }

  /** A failed forward tally stays failed with more references. */
  lemma {:induction false} ForwardTallyFails(lines: map<int, Line>, ignore: seq<string>, sentence: seq<string>, refs: seq<Ref>, m: nat, n: nat)
    requires m <= n <= |refs|
    requires ForwardTally(lines, ignore, sentence, refs[..m]).Err?
    ensures ForwardTally(lines, ignore, sentence, refs[..n]) == ForwardTally(lines, ignore, sentence, refs[..m])
    decreases n
  {
    if m < n {
      ForwardTallyFails(lines, ignore, sentence, refs, m, n - 1);
      assert refs[..n][..n - 1] == refs[..n - 1];
    }
  }

  /** The `pre_words` loop over the first `n` references of the word
      (pyborg.py:420-448). */
  method CollectBack(lines: map<int, Line>, ignore: seq<string>, sentence: seq<string>, refs: seq<Ref>, n: nat) returns (r: Res<Tally>)
    requires n <= |refs|
    ensures r == BackTally(lines, ignore, sentence, refs[..n])
  {
    var preWords: Tally := [("", 0)];
    for x := 0 to n
      invariant BackTally(lines, ignore, sentence, refs[..x]) == Ok(preWords)
    {
      assert refs[..x + 1][..x] == refs[..x];
      var e := BackEntry(lines, ignore, sentence, preWords, refs[x]);
      if e.Err? {
        BackTallyFails(lines, ignore, sentence, refs, x + 1, n);
        return e;
      }
      preWords := e.value;
    }
    return Ok(preWords);
  }

  /** The `post_words` loop over all references of the word (pyborg.py:498-522). */
  method CollectForward(lines: map<int, Line>, ignore: seq<string>, sentence: seq<string>, refs: seq<Ref>) returns (r: Res<Tally>)
    ensures r == ForwardTally(lines, ignore, sentence, refs)
  {
    var postWords: Tally := [("", 0)];
    for x := 0 to |refs|
      invariant ForwardTally(lines, ignore, sentence, refs[..x]) == Ok(postWords)
    {
      assert refs[..x + 1][..x] == refs[..x];
      var e := ForwardEntry(lines, ignore, sentence, postWords, refs[x]);
      if e.Err? {
        ForwardTallyFails(lines, ignore, sentence, refs, x + 1, |refs|);
        assert refs[..|refs|] == refs;
        return e;
      }
      postWords := e.value;
    }
    assert refs[..|refs|] == refs;
    return Ok(postWords);
  }

  // ---------------------------------------------------------------------
  // The weighted pick (pyborg.py:455-465, 523-534)

  /** The list `numbers` of running totals (pyborg.py:455-457). */
  method RunningTotals(liste: Tally) returns (numbers: seq<int>)
    requires |liste| > 0
    ensures numbers == Sums(liste)
  {
    assert liste[..1] == [liste[0]] && liste[..1][..0] == [];
    numbers := [liste[0].1];
    for x := 1 to |liste|
      invariant |numbers| == x
      invariant forall i :: 0 <= i < x ==> numbers[i] == Total(liste[..i + 1])
    {
      assert liste[..x + 1][..x] == liste[..x];
      numbers := numbers + [liste[x].1 + numbers[x - 1]];
    }
  }

  /** The scan for the first running total that reaches the draw
      (pyborg.py:461-465). */
  method FirstReaching(numbers: seq<int>, mot: int) returns (x: nat)
    requires |numbers| > 0 && mot <= numbers[|numbers| - 1]
    ensures x == FirstAtLeast(numbers, mot, 0)
  {
    x := 0;
    while !(mot <= numbers[x])
      invariant x < |numbers|
      invariant FirstAtLeast(numbers, mot, 0) == FirstAtLeast(numbers, mot, x)
      decreases |numbers| - x
    {
      x := x + 1;
    }
  }

  /** The backward retry loop (pyborg.py:468-472); its `mot = ''` is
      overwritten by the next line, so only the index matters. */
  method SkipBack(liste: Tally, sentence: seq<string>, x0: nat, mot0: string) returns (r: Res<string>)
    ensures r == BackSkip(liste, sentence, x0, mot0)
  {
    var x, mot := x0, mot0;
    while mot in sentence
      invariant BackSkip(liste, sentence, x, mot) == BackSkip(liste, sentence, x0, mot0)
      decreases |liste| - x
    {
      x := x + 1;
      if x >= |liste| {
        return Err(IndexError);
      }
      mot := liste[x].0;
    }
    return Ok(mot);
  }

  /** The forward retry loop (pyborg.py:536-542), restarting at the top of
      the list and giving up on "" at the next-to-last entry. */
  method SkipForward(liste: Tally, sentence: seq<string>, mot0: string) returns (mot: string)
    ensures mot == ForwardSkip(liste, sentence, -1, mot0)
  {
    var x := -1;
    mot := mot0;
    while mot in sentence
      invariant x >= -1
      invariant ForwardSkip(liste, sentence, x, mot) == ForwardSkip(liste, sentence, -1, mot0)
      decreases |liste| - x
    {
      x := x + 1;
      if x >= |liste| - 1 {
        mot := "";
        break;
      }
      mot := liste[x].0;
    }
  }

  // ---------------------------------------------------------------------
  // One round of each walk

  /** One pass of the backward `while` (pyborg.py:418-476): the pieces of
      the chosen candidate, `[""]` when the walk ends. */
  method BackRound(words: Index, lines: map<int, Line>, ignore: seq<string>, sentence: seq<string>, d: int) returns (r: Res<seq<string>>)
    requires |sentence| > 0
    ensures r == BackStep(words, lines, ignore, sentence, d)
  {
    var word := SplitOn(sentence[0], " ")[0];
    if word !in words {
      return Err(KeyError);
    }
    var refs := words[word];
    var preWords := CollectBack(lines, ignore, sentence, refs, if refs == [] then 0 else |refs| - 1);
    if preWords.Err? {
      return Err(preWords.fault);
    }
    var liste := SortDesc(preWords.value);
    var numbers := RunningTotals(liste);
    var mot := RandInt(0, numbers[|numbers| - 1], d);
    if mot.Err? {
      return Err(mot.fault);
    }
    var x := FirstReaching(numbers, mot.value);
    var chosen := SkipBack(liste, sentence, x, liste[x].0);
    if chosen.Err? {
      return Err(chosen.fault);
    }
    return Ok(SplitOn(chosen.value, " "));
  }

  /** One pass of the forward `while` (pyborg.py:494-548). */
  method ForwardRound(words: Index, lines: map<int, Line>, ignore: seq<string>, sentence: seq<string>, d: int) returns (r: Res<seq<string>>)
    requires |sentence| > 0
    ensures r == ForwardStep(words, lines, ignore, sentence, d)
  {
    var last := SplitOn(sentence[|sentence| - 1], " ");
    var word := last[|last| - 1];
    if word !in words {
      return Err(KeyError);
    }
    var postWords := CollectForward(lines, ignore, sentence, words[word]);
    if postWords.Err? {
      return Err(postWords.fault);
    }
    var liste := SortDesc(postWords.value);
    var numbers := RunningTotals(liste);
    var mot := RandInt(0, numbers[|numbers| - 1], d);
    if mot.Err? {
      return Err(mot.fault);
    }
    var x := FirstReaching(numbers, mot.value);
    var chosen := SkipForward(liste, sentence, liste[x].0);
    return Ok(SplitOn(chosen, " "));
  }

  /** `mot.reverse()` and `sentence.insert(0, x)` for each piece
      (pyborg.py:474-479): the pieces end in front, in their own order. */
  method Prepend(mot: seq<string>, sentence0: seq<string>) returns (sentence: seq<string>)
    ensures sentence == mot + sentence0
  {
    sentence := sentence0;
    var i := |mot|;
    while i > 0
      invariant 0 <= i <= |mot|
      invariant sentence == mot[i..] + sentence0
    {
      i := i - 1;
      assert mot[i..] == [mot[i]] + mot[i + 1..];
      sentence := [mot[i]] + sentence;
    }
  }

  /** `sentence.append(x)` for each piece (pyborg.py:547). */
  method Append(sentence0: seq<string>, mot: seq<string>) returns (sentence: seq<string>)
    ensures sentence == sentence0 + mot
  {
    sentence := sentence0;
    for i := 0 to |mot|
      invariant sentence == sentence0 + mot[..i]
    {
      assert mot[..i + 1] == mot[..i] + [mot[i]];
      sentence := sentence + [mot[i]];
    }
    assert mot[..|mot|] == mot;
  }

  // ---------------------------------------------------------------------
  // The walks (pyborg.py:416-550)

  /** The backward `while done == 0` loop from the seed; also yields the
      draws it left unused. */
  method WalkBack(words: Index, lines: map<int, Line>, ignore: seq<string>, seed: string, draws: seq<int>) returns (r: Res<(seq<string>, seq<int>)>)
    ensures r == BackWalk(words, lines, ignore, [seed], draws)
  {
    var sentence := [seed];
    var rest := draws;
    while true
      invariant |sentence| > 0
      invariant BackWalk(words, lines, ignore, sentence, rest) == BackWalk(words, lines, ignore, [seed], draws)
      decreases |rest|
    {
      if rest == [] {
        return Err(DrawsExhausted);
      }
      var mot := BackRound(words, lines, ignore, sentence, rest[0]);
      if mot.Err? {
        return Err(mot.fault);
      }
      if mot.value == [""] {
        return Ok((sentence, rest[1..]));
      }
      sentence := Prepend(mot.value, sentence);
      rest := rest[1..];
    }
  }

  /** The forward `while done == 0` loop from the last two words. */
  method WalkForward(words: Index, lines: map<int, Line>, ignore: seq<string>, start: seq<string>, draws: seq<int>) returns (r: Res<(seq<string>, seq<int>)>)
    requires |start| > 0
    ensures r == ForwardWalk(words, lines, ignore, start, draws)
  {
    var sentence := start;
    var rest := draws;
    while true
      invariant |sentence| > 0
      invariant ForwardWalk(words, lines, ignore, sentence, rest) == ForwardWalk(words, lines, ignore, start, draws)
      decreases |rest|
    {
      if rest == [] {
        return Err(DrawsExhausted);
      }
      var mot := ForwardRound(words, lines, ignore, sentence, rest[0]);
      if mot.Err? {
        return Err(mot.fault);
      }
      if mot.value == [""] {
        return Ok((sentence, rest[1..]));
      }
      sentence := Append(sentence, mot.value);
      rest := rest[1..];
    }
  }

  /** The forward walk from the last two words of `preWords`, whose result
      replaces them (pyborg.py:481-550). */
  method ContinueWalk(words: Index, lines: map<int, Line>, ignore: seq<string>, preWords: seq<string>, draws: seq<int>) returns (r: Res<seq<string>>)
    requires |preWords| > 0
    ensures r == Continue(words, lines, ignore, preWords, draws)
  {
    var n := if |preWords| >= 2 then |preWords| - 2 else 0;
    var forward := WalkForward(words, lines, ignore, preWords[n..], draws);
    match forward
    case Err(e) =>
      r := Err(e);
    case Ok((postWords, _)) =>
      r := Ok(preWords[..n] + postWords);
  }

  /** Both walks from the seed (pyborg.py:416-550). */
  method BothWalks(words: Index, lines: map<int, Line>, ignore: seq<string>, seed: string, draws: seq<int>) returns (r: Res<seq<string>>)
    ensures r == Walks(words, lines, ignore, seed, draws)
  {
    var back := WalkBack(words, lines, ignore, seed, draws);
    match back
    case Err(e) =>
      r := Err(e);
    case Ok((preWords, rest)) =>
      r := ContinueWalk(words, lines, ignore, preWords, rest);
  }

  /** `Generate` in terms of the input tokens and the seed list. */
  lemma GenerateBySeeds(words: Index, lines: map<int, Line>, ignore: seq<string>, body: string, draws: seq<int>, toks: seq<string>, index: seq<string>)
    requires toks == Split(body)
    requires index == Ties(words, Candidates(toks, ignore), MinCount(words, Candidates(toks, ignore)))
    ensures toks == [] || index == [] ==> Generate(words, lines, ignore, body, draws) == Ok([])
    ensures toks != [] && index != [] && draws == [] ==> Generate(words, lines, ignore, body, draws) == Err(DrawsExhausted)
    ensures toks != [] && index != [] && draws != [] ==>
              Generate(words, lines, ignore, body, draws) == Walks(words, lines, ignore, index[RandInt(0, |index| - 1, draws[0]).value], draws[1..])
  {
  }

  /** Everything before the formatting (pyborg.py:380-550): "" without an
      input word or an eligible one, else the walks from a drawn seed. */
  method GenerateWords(words: Index, lines: map<int, Line>, ignore: seq<string>, body: string, draws: seq<int>) returns (r: Res<seq<string>>)
    ensures r == Generate(words, lines, ignore, body, draws)
  {
    var toks := Tokens(body);
    if toks == [] {
      GenerateBySeeds(words, lines, ignore, body, draws, toks, []);
      return Ok([]);
    }
    var index := RarestWords(words, ignore, toks);
    GenerateBySeeds(words, lines, ignore, body, draws, toks, index);
    if index == [] {
      return Ok([]);
    }
    if draws == [] {
      return Err(DrawsExhausted);
    }
    var word := index[RandInt(0, |index| - 1, draws[0]).value];
    r := BothWalks(words, lines, ignore, word, draws[1..]);
  }

  // ---------------------------------------------------------------------
  // Formatting (pyborg.py:552-573)

  /** The alias loop (pyborg.py:553-555), in place on the list. */
  method Unaliased(sentence0: seq<string>) returns (r: Res<seq<string>>)
    ensures r == StripAliases(sentence0)
  {
    var sentence := sentence0;
    for x := 0 to |sentence0|
      invariant |sentence| == |sentence0|
      invariant forall i :: 0 <= i < x ==> sentence0[i] != "" && Unalias(sentence0[i]) == Ok(sentence[i])
      invariant forall i :: x <= i < |sentence0| ==> sentence[i] == sentence0[i]
    {
      if sentence[x] == "" {
        return Err(IndexError);
      }
      if sentence[x][0] == '~' {
        sentence := sentence[x := sentence[x][1..]];
      }
    }
    var s := StripAliases(sentence0);
    assert s.value == sentence by {
      forall i | 0 <= i < |sentence| ensures s.value[i] == sentence[i] {
        assert Unalias(sentence0[i]) == Ok(s.value[i]);
      }
    }
    return Ok(sentence);
  }

  /** One more word on the right adds a space and the word. */
  lemma {:induction false} InterleaveSnoc(a: seq<string>, b: string)
    requires |a| > 0
    ensures Interleave(a + [b]) == Interleave(a) + [" ", b]
    decreases |a|
  {
    if |a| > 1 {
      assert (a + [b])[1..] == a[1..] + [b];
      InterleaveSnoc(a[1..], b);
    }
  }

  /** `sentence.insert(1 + x * 2, " ")` for each `x` below `len(sentence) - 1`
      (pyborg.py:559). */
  method Spaced(s: seq<string>) returns (sentence: seq<string>)
    ensures sentence == Interleave(s)
  {
    sentence := s;
    var n := if |s| == 0 then 0 else |s| - 1;
    for x := 0 to n
      invariant |s| > 0 ==> sentence == Interleave(s[..x + 1]) + s[x + 1..]
      invariant |s| == 0 ==> sentence == []
    {
      var done := Interleave(s[..x + 1]);
      assert sentence[..1 + x * 2] == done;
      assert sentence[1 + x * 2..] == [s[x + 1]] + s[x + 2..];
      sentence := sentence[..1 + x * 2] + [" "] + sentence[1 + x * 2..];
      assert s[..x + 2] == s[..x + 1] + [s[x + 1]];
      InterleaveSnoc(s[..x + 1], s[x + 1]);
    }
    if |s| > 0 {
      assert s[..n + 1] == s && s[n + 1..] == [];
    }
  }

  /** A failed punctuation loop stays failed. */
  lemma {:induction false} PunctuateFails(s: seq<string>, m: nat, n: nat)
    requires m <= n <= |s|
    requires Punctuate(s, m).Err?
    ensures Punctuate(s, n) == Punctuate(s, m)
    decreases n
  {
    if m < n {
      PunctuateFails(s, m, n - 1);
    }
  }

  /** The punctuation loop (pyborg.py:564-570), in place on the list; the
      inner loop over '?', '!' and ',' is the test on the three marks. */
  method Glued(s: seq<string>) returns (r: Res<seq<string>>)
    ensures r == Punctuate(s, |s|)
  {
    var sentence := s;
    for x := 0 to |s|
      invariant Punctuate(s, x) == Ok(sentence)
    {
      if sentence[x] == "'" {
        if x + 1 >= |sentence| {
          PunctuateFails(s, x + 1, |s|);
          return Err(IndexError);
        }
        sentence := sentence[Prev(|sentence|, x) := ""];
        sentence := sentence[x + 1 := ""];
      }
      if sentence[x] == "?" || sentence[x] == "!" || sentence[x] == "," {
        sentence := sentence[Prev(|sentence|, x) := ""];
      }
    }
    return Ok(sentence);
  }

  /** `reply(body)` (pyborg.py:376-573): "" when nothing was generated,
      otherwise the words with aliases stripped, spaced, glued and joined. */
  method ReplyTo(words: Index, lines: map<int, Line>, ignore: seq<string>, body: string, draws: seq<int>) returns (r: Res<string>)
    ensures r == Reply(words, lines, ignore, body, draws)
  {
    var generated := GenerateWords(words, lines, ignore, body, draws);
    if generated.Err? {
      return Err(generated.fault);
    }
    if generated.value == [] {
      return Ok("");
    }
    var plain := Unaliased(generated.value);
    if plain.Err? {
      return Err(plain.fault);
    }
    var sentence := Spaced(plain.value);
    var glued := Glued(sentence);
    if glued.Err? {
      return Err(glued.fault);
    }
    return Ok(JoinWith(glued.value, ""));
  }
}
