/** Learning: `PyborgBrain.learn_sentence` and `PyborgBrain.learn`
    (pyborg.py:252-333) as functions from the old store to the new one. */
module Learning {
  import opened Text
  import opened Knowledge

  /** The first four tests of the word loop, each ending in a plain
      `return` (pyborg.py:266-289): censored, new while learning is off, too
      long, or mixed letters and digits. */
  predicate StopsQuietly(st: Store, cfg: Settings, w: string) {
    || cfg.censored(w)
    || (!st.learning && w !in st.words)
    || |w| > cfg.maxWordLength
    || (CountAlpha(w) > 0 && CountDigits(w) > 0)
  }

  /** The vowel test (pyborg.py:290): longer than five bytes, with letters,
      and a vowel ratio below the minimum. */
  predicate VowelPoor(cfg: Settings, w: string) {
    CountAlpha(w) > 0 && |w| > 5 && CountVowels(w) * cfg.vowelRatioDen < cfg.vowelRatioNum * |w|
  }

  /** A word that stops its whole sentence from being learned
      (pyborg.py:265-292). */
  predicate Rejects(st: Store, cfg: Settings, w: string) {
    StopsQuietly(st, cfg, w) || VowelPoor(cfg, w)
  }

  /** The sentence is left alone: it has no token, or one of its tokens is rejected. */
  predicate Refused(st: Store, cfg: Settings, ws: seq<string>) {
    ws == [] || exists i :: 0 <= i < |ws| && Rejects(st, cfg, ws[i])
  }

  /** A word holding '-' or '_' is learned as the nickname placeholder (pyborg.py:294). */
  function Nick(w: string): string {
    if '-' in w || '_' in w then "#nick" else w
  }

  function Nicks(ws: seq<string>): (ts: seq<string>)
    ensures |ts| == |ws| && forall i :: 0 <= i < |ws| ==> ts[i] == Nick(ws[i])
  {
    seq(|ws|, i requires 0 <= i < |ws| => Nick(ws[i]))
  }

  /** `num_contexts / num_words <= 100` with true division, where a division
      by zero counts as 0 (pyborg.py:296-299, 310). */
  predicate FewContextsPerWord(st: Store) {
    || st.numWords == 0
    || (st.numWords > 0 && st.numContexts <= 100 * st.numWords)
    || (st.numWords < 0 && st.numContexts >= 100 * st.numWords)
  }

  /** The distinct words among the first `n` tokens. */
  function TokenSet(toks: seq<string>, n: nat): set<string>
    requires n <= |toks|
  {
    if n == 0 then {} else TokenSet(toks, n - 1) + {toks[n - 1]}
  }

  /** The token set holds exactly the first `n` tokens. */
  lemma {:induction false} TokenSetMembers(toks: seq<string>, n: nat)
    requires n <= |toks|
    ensures forall i :: 0 <= i < n ==> toks[i] in TokenSet(toks, n)
    ensures forall w :: w in TokenSet(toks, n) ==> exists i :: 0 <= i < n && toks[i] == w
  {
    if n > 0 {
      TokenSetMembers(toks, n - 1);
    }
  }

  /** The references a new line `h` with tokens `toks` gives to `w` from its
      first `n` positions, in position order. */
  function RefsAt(toks: seq<string>, w: string, h: int, n: nat): seq<Ref>
    requires n <= |toks|
  {
    if n == 0 then [] else RefsAt(toks, w, h, n - 1) + (if toks[n - 1] == w then [Ref(h, n - 1)] else [])
  }

  /** The index after the first `n` iterations of the linking loop at
      pyborg.py:313-320: every word keeps its list and gains the references of
      its positions among the first `n`; a word met for the first time gets a
      list of its own. */
  function LinkWords(m: Index, toks: seq<string>, h: int, n: nat): Index
    requires n <= |toks|
  {
    if n == 0 then m
    else
      var p := LinkWords(m, toks, h, n - 1);
      p[toks[n - 1] := ListOf(p, toks[n - 1]) + [Ref(h, n - 1)]]
  }

  /** Creating a new line and linking every one of its positions
      (pyborg.py:311-320): one more word per new distinct token, one more
      context per position. */
  function AddLine(st: Store, toks: seq<string>, h: int, weight: int): Store {
    st.(lines := st.lines[h := Line(toks, weight)],
        words := LinkWords(st.words, toks, h, |toks|),
        numWords := st.numWords + |TokenSet(toks, |toks|) - st.words.Keys|,
        numContexts := st.numContexts + |toks|)
  }

  /** Adding to the weight of a known line (pyborg.py:306-307). */
  function Reweigh(st: Store, h: int, weight: int): Store
    requires h in st.lines
  {
    st.(lines := st.lines[h := Line(st.lines[h].tokens, st.lines[h].weight + weight)])
  }

  /** `learn_sentence(sentence, weight)`, with `hash` standing for Python's
      string hash. */
  function LearnSentence(st: Store, cfg: Settings, hash: string -> int, sentence: string, weight: int): Store {
    var ws := Split(sentence);
    if Refused(st, cfg, ws) then st
    else
      var toks := Nicks(ws);
      var h := hash(Join(toks));
      var st1 :=
        if h in st.lines then Reweigh(st, h, weight)
        else if FewContextsPerWord(st) || st.learning then AddLine(st, toks, h, weight)
        else st;
      if st1.numWords >= cfg.maxWords then st1.(learning := false) else st1
  }

  /** Learning the sentences one after the other, from the first. */
  function LearnAll(st: Store, cfg: Settings, hash: string -> int, sentences: seq<string>, weight: int): Store {
    if sentences == [] then st
    else LearnSentence(LearnAll(st, cfg, hash, sentences[..|sentences| - 1], weight), cfg, hash, sentences[|sentences| - 1], weight)
  }

  /** `learn(body, weight)`: the body is cut at every ". " (pyborg.py:332). */
  function Learn(st: Store, cfg: Settings, hash: string -> int, body: string, weight: int): Store {
    LearnAll(st, cfg, hash, SplitOn(body, ". "), weight)
  }

  // ---------------------------------------------------------------------
  // What one call does

  /** An empty sentence, or one with a rejected word, changes nothing. */
  lemma LearnRefused(st: Store, cfg: Settings, hash: string -> int, sentence: string, weight: int)
    requires Refused(st, cfg, Split(sentence))
    ensures LearnSentence(st, cfg, hash, sentence, weight) == st
  {
  }

  /** A sentence whose cleaned hash is already a line only adds to that
      line's weight; the index and the counters are untouched. */
  lemma LearnKnownLine(st: Store, cfg: Settings, hash: string -> int, sentence: string, weight: int)
    requires !Refused(st, cfg, Split(sentence))
    requires hash(Join(Nicks(Split(sentence)))) in st.lines
    ensures var h := hash(Join(Nicks(Split(sentence))));
            var r := LearnSentence(st, cfg, hash, sentence, weight);
            && r.words == st.words && r.numWords == st.numWords && r.numContexts == st.numContexts
            && r.lines == st.lines[h := Line(st.lines[h].tokens, st.lines[h].weight + weight)]
            && r.learning == (st.learning && st.numWords < cfg.maxWords)
  {
  }

  lemma {:induction false} RefsAtMembers(toks: seq<string>, w: string, h: int, n: nat)
    requires n <= |toks|
    ensures forall r :: r in RefsAt(toks, w, h, n) <==> r.line == h && r.pos < n && toks[r.pos] == w
    ensures forall a, b :: 0 <= a < b < |RefsAt(toks, w, h, n)| ==> RefsAt(toks, w, h, n)[a].pos < RefsAt(toks, w, h, n)[b].pos
    ensures w !in TokenSet(toks, n) ==> RefsAt(toks, w, h, n) == []
  {
    if n > 0 {
      RefsAtMembers(toks, w, h, n - 1);
    }
  }

  /** Linking the first `n` positions leaves the old words plus those
      tokens as keys. */
  lemma {:induction false} LinkWordsKeys(m: Index, toks: seq<string>, h: int, n: nat)
    requires n <= |toks|
    ensures LinkWords(m, toks, h, n).Keys == m.Keys + TokenSet(toks, n)
  {
    if n > 0 {
      LinkWordsKeys(m, toks, h, n - 1);
    }
  }

  /** Linking the first `n` positions gives every word its old list
      followed by the references of its positions among the first `n`. */
  lemma {:induction false} LinkWordsAt(m: Index, toks: seq<string>, h: int, n: nat, w: string)
    requires n <= |toks| && w in LinkWords(m, toks, h, n)
    ensures LinkWords(m, toks, h, n)[w] == ListOf(m, w) + RefsAt(toks, w, h, n)
  {
    if n == 0 {
      assert m[w] + [] == m[w];
    } else {
      var k := n - 1;
      var p := LinkWords(m, toks, h, k);
      var r := LinkWords(m, toks, h, k + 1);
      assert r == p[toks[k] := ListOf(p, toks[k]) + [Ref(h, k)]];
      assert RefsAt(toks, w, h, k + 1) == RefsAt(toks, w, h, k) + (if toks[k] == w then [Ref(h, k)] else []);
      if w in p {
        LinkWordsAt(m, toks, h, k, w);
      } else {
        LinkWordsKeys(m, toks, h, k);
        RefsAtMembers(toks, w, h, k);
      }
    }
  }

  /** The number of new distinct tokens grows by one exactly when token `n`
      is neither an old word nor an earlier token. */
  lemma NewWordsStep(keys: set<string>, toks: seq<string>, n: nat)
    requires n < |toks|
    ensures |TokenSet(toks, n + 1) - keys| == |TokenSet(toks, n) - keys| + (if toks[n] in keys + TokenSet(toks, n) then 0 else 1)
  {
    if toks[n] !in keys + TokenSet(toks, n) {
      assert TokenSet(toks, n + 1) - keys == (TokenSet(toks, n) - keys) + {toks[n]};
    } else {
      assert TokenSet(toks, n + 1) - keys == TokenSet(toks, n) - keys;
    }
  }

  /** The linking loop adds one reference per position. */
  lemma {:induction false} LinkWordsRefCount(m: Index, toks: seq<string>, h: int, n: nat)
    requires n <= |toks|
    ensures TotalRefs(LinkWords(m, toks, h, n)) == TotalRefs(m) + n
  {
    if n > 0 {
      LinkWordsRefCount(m, toks, h, n - 1);
      TotalRefsAppend(LinkWords(m, toks, h, n - 1), toks[n - 1], Ref(h, n - 1));
    }
  }

  /** The linking loop adds exactly the new distinct tokens as words. */
  lemma LinkWordsKeyCount(m: Index, toks: seq<string>, h: int, n: nat)
    requires n <= |toks|
    ensures |LinkWords(m, toks, h, n).Keys| == |m.Keys| + |TokenSet(toks, n) - m.Keys|
  {
    LinkWordsKeys(m, toks, h, n);
    var a := m.Keys;
    var b := TokenSet(toks, n) - a;
    assert LinkWords(m, toks, h, n).Keys == a + b;
    assert a !! b;
  }

  /** What the linking loop leaves behind: the old words plus the tokens as
      keys; every old list is a prefix of the new one; everything past the
      prefix is a reference to line `h`, at a position holding the word, with
      no reference repeated; and every position is referenced. */
  lemma LinkWordsFacts(m: Index, toks: seq<string>, h: int, n: nat)
    requires n <= |toks|
    ensures var r := LinkWords(m, toks, h, n);
            && r.Keys == m.Keys + TokenSet(toks, n)
            && (forall w :: w in r ==> ListOf(m, w) <= r[w])
            && (forall w, q :: w in r && q in r[w] ==> q in ListOf(m, w) || (q.line == h && q.pos < n && toks[q.pos] == w))
            && (forall w, b :: w in r && |ListOf(m, w)| <= b < |r[w]| ==> r[w][b].line == h)
            && (forall w :: w in r ==> Distinct(r[w][|ListOf(m, w)|..]))
            && (forall i :: 0 <= i < n ==> toks[i] in r && Ref(h, i) in r[toks[i]])
  {
    var r: Index := LinkWords(m, toks, h, n);
    LinkWordsKeys(m, toks, h, n);
    forall w | w in r
      ensures r[w] == ListOf(m, w) + RefsAt(toks, w, h, n)
      ensures forall q :: q in RefsAt(toks, w, h, n) <==> q.line == h && q.pos < n && toks[q.pos] == w
      ensures forall a, b :: 0 <= a < b < |RefsAt(toks, w, h, n)| ==> RefsAt(toks, w, h, n)[a].pos < RefsAt(toks, w, h, n)[b].pos
    {
      LinkWordsAt(m, toks, h, n, w);
      RefsAtMembers(toks, w, h, n);
    }
    forall w: string, b: int | w in r && |ListOf(m, w)| <= b < |r[w]| ensures r[w][b].line == h {
      assert r[w][b] == RefsAt(toks, w, h, n)[b - |ListOf(m, w)|];
    }
    forall w | w in r ensures Distinct(r[w][|ListOf(m, w)|..]) {
      assert r[w][|ListOf(m, w)|..] == RefsAt(toks, w, h, n);
    }
    TokenSetMembers(toks, n);
    forall i | 0 <= i < n ensures Ref(h, i) in r[toks[i]] {
      RefsAtMembers(toks, toks[i], h, n);
    }
  }

  /** Learning a new n-token sentence creates one line with the given weight,
      appends (h, i) to the list of token i for every position i, adds n to
      `num_contexts` and the number of previously unknown distinct tokens to
      `num_words`; tokens holding '-' or '_' are stored as "#nick". */
  lemma LearnNewLine(st: Store, cfg: Settings, hash: string -> int, sentence: string, weight: int)
    requires !Refused(st, cfg, Split(sentence))
    requires hash(Join(Nicks(Split(sentence)))) !in st.lines
    requires FewContextsPerWord(st) || st.learning
    ensures var ws := Split(sentence);
            var toks := Nicks(ws);
            var h := hash(Join(toks));
            var r := LearnSentence(st, cfg, hash, sentence, weight);
            && |toks| == |ws|
            && (forall i :: 0 <= i < |ws| ==> toks[i] == (if '-' in ws[i] || '_' in ws[i] then "#nick" else ws[i]))
            && r.lines == st.lines[h := Line(toks, weight)]
            && r.words.Keys == st.words.Keys + TokenSet(toks, |toks|)
            && (forall w :: w in r.words ==> ListOf(st.words, w) <= r.words[w])
            && (forall w, q :: w in r.words && q in r.words[w] ==>
                  q in ListOf(st.words, w) || (q.line == h && q.pos < |toks| && toks[q.pos] == w))
            && (forall i :: 0 <= i < |toks| ==> toks[i] in r.words && Ref(h, i) in r.words[toks[i]])
            && r.numContexts == st.numContexts + |toks|
            && r.numWords == st.numWords + |TokenSet(toks, |toks|) - st.words.Keys|
            && r.learning == (st.learning && r.numWords < cfg.maxWords)
  {
    var toks := Nicks(Split(sentence));
    var h := hash(Join(toks));
    var a := AddLine(st, toks, h, weight);
    assert LearnSentence(st, cfg, hash, sentence, weight) == a.(learning := a.learning && a.numWords < cfg.maxWords);
    LinkWordsFacts(st.words, toks, h, |toks|);
  }

  /** Once the word count reaches `max_words`, learning is switched off (pyborg.py:323-325). */
  lemma LearnLatch(st: Store, cfg: Settings, hash: string -> int, sentence: string, weight: int)
    ensures var r := LearnSentence(st, cfg, hash, sentence, weight);
            !Refused(st, cfg, Split(sentence)) && r.numWords >= cfg.maxWords ==> !r.learning
  {
  }

  // ---------------------------------------------------------------------
  // The invariant is kept

  /** A new line `h` whose positions are linked as `LinkWordsFacts`
      describes keeps references valid, the index complete, no word empty and
      no reference repeated. */
  lemma LinkedLineConsistent(st: Store, r: Store, toks: seq<string>, h: int)
    requires RefsValid(st) && Indexed(st) && NoEmptyWords(st) && NoDuplicateRefs(st)
    requires h !in st.lines && h in r.lines && r.lines[h].tokens == toks
    requires forall g :: g in st.lines ==> g in r.lines && r.lines[g] == st.lines[g]
    requires forall g :: g in r.lines ==> g == h || g in st.lines
    requires st.words.Keys <= r.words.Keys
    requires forall w :: w in r.words ==> ListOf(st.words, w) <= r.words[w]
    requires forall w, q :: w in r.words && q in r.words[w] ==> q in ListOf(st.words, w) || (q.line == h && q.pos < |toks| && toks[q.pos] == w)
    requires forall w, b :: w in r.words && |ListOf(st.words, w)| <= b < |r.words[w]| ==> r.words[w][b].line == h
    requires forall w :: w in r.words ==> Distinct(r.words[w][|ListOf(st.words, w)|..])
    requires forall i :: 0 <= i < |toks| ==> toks[i] in r.words && Ref(h, i) in r.words[toks[i]]
    requires forall w :: w in r.words && w !in st.words ==> exists i :: 0 <= i < |toks| && toks[i] == w
    ensures RefsValid(r) && Indexed(r) && NoEmptyWords(r) && NoDuplicateRefs(r)
  {
    assert RefsValid(r) by {
      forall w, q | w in r.words && q in r.words[w] ensures RefValid(r.lines, w, q) {
        if q in ListOf(st.words, w) {
          assert RefValid(st.lines, w, q);
        }
      }
    }
    assert Indexed(r) by {
      forall g, i | g in r.lines && 0 <= i < |r.lines[g].tokens|
        ensures r.lines[g].tokens[i] in r.words && Ref(g, i) in r.words[r.lines[g].tokens[i]]
      {
        if g != h {
          var w := st.lines[g].tokens[i];
          assert Ref(g, i) in st.words[w];
          assert st.words[w] <= r.words[w];
        }
      }
    }
    assert NoEmptyWords(r) by {
      forall w | w in r.words ensures r.words[w] != [] {
        if w in st.words {
          assert st.words[w] <= r.words[w];
        } else {
          var i :| 0 <= i < |toks| && toks[i] == w;
        }
      }
    }
    assert NoDuplicateRefs(r) by {
      forall w, a, b | w in r.words && 0 <= a < b < |r.words[w]| ensures r.words[w][a] != r.words[w][b] {
        var k := |ListOf(st.words, w)|;
        if b < k {
          assert r.words[w][a] == st.words[w][a] && r.words[w][b] == st.words[w][b];
        } else if a < k {
          assert r.words[w][a] in st.words[w];
          assert RefValid(st.lines, w, r.words[w][a]);
        } else {
          assert r.words[w][a] == r.words[w][k..][a - k] && r.words[w][b] == r.words[w][k..][b - k];
        }
      }
    }
  }

  /** Adding a line whose key is free keeps the store consistent. */
  lemma AddLineConsistent(st: Store, toks: seq<string>, h: int, weight: int)
    requires Consistent(st)
    requires h !in st.lines
    ensures Consistent(AddLine(st, toks, h, weight))
  {
    AddLineCounters(st, toks, h, weight);
    AddLineLinked(st, toks, h, weight);
  }

  /** Adding a line keeps exact counters exact. */
  lemma AddLineCounters(st: Store, toks: seq<string>, h: int, weight: int)
    requires CountersExact(st)
    ensures CountersExact(AddLine(st, toks, h, weight))
  {
    LinkWordsRefCount(st.words, toks, h, |toks|);
    LinkWordsKeyCount(st.words, toks, h, |toks|);
  }

  lemma AddLineLinked(st: Store, toks: seq<string>, h: int, weight: int)
    requires RefsValid(st) && Indexed(st) && NoEmptyWords(st) && NoDuplicateRefs(st)
    requires h !in st.lines
    ensures var r := AddLine(st, toks, h, weight);
            RefsValid(r) && Indexed(r) && NoEmptyWords(r) && NoDuplicateRefs(r)
  {
    LinkWordsFacts(st.words, toks, h, |toks|);
    TokenSetMembers(toks, |toks|);
    LinkedLineConsistent(st, AddLine(st, toks, h, weight), toks, h);
  }

  /** Changing a line's weight keeps the store consistent. */
  lemma ReweighConsistent(st: Store, h: int, weight: int)
    requires Consistent(st)
    requires h in st.lines
    ensures Consistent(Reweigh(st, h, weight))
  {
    var r := Reweigh(st, h, weight);
    assert RefsValid(r) by {
      forall w, q | w in r.words && q in r.words[w] ensures RefValid(r.lines, w, q) {
        assert RefValid(st.lines, w, q);
      }
    }
    assert Indexed(r) by {
      forall g, i | g in r.lines && 0 <= i < |r.lines[g].tokens|
        ensures r.lines[g].tokens[i] in r.words && Ref(g, i) in r.words[r.lines[g].tokens[i]]
      {
        assert r.lines[g].tokens == st.lines[g].tokens;
      }
    }
  }

  /** Learning a sentence keeps a consistent store consistent. */
  lemma LearnSentenceConsistent(st: Store, cfg: Settings, hash: string -> int, sentence: string, weight: int)
    requires Consistent(st)
    ensures Consistent(LearnSentence(st, cfg, hash, sentence, weight))
  {
    var ws := Split(sentence);
    if !Refused(st, cfg, ws) {
      var toks := Nicks(ws);
      var h := hash(Join(toks));
      if h in st.lines {
        ReweighConsistent(st, h, weight);
      } else if FewContextsPerWord(st) || st.learning {
        AddLineConsistent(st, toks, h, weight);
      }
    }
  }
  /** Learning a whole body keeps a consistent store consistent. */
  lemma {:induction false} LearnAllConsistent(st: Store, cfg: Settings, hash: string -> int, sentences: seq<string>, weight: int)
    requires Consistent(st)
    ensures Consistent(LearnAll(st, cfg, hash, sentences, weight))
  {
    if sentences != [] {
      LearnAllConsistent(st, cfg, hash, sentences[..|sentences| - 1], weight);
      LearnSentenceConsistent(LearnAll(st, cfg, hash, sentences[..|sentences| - 1], weight), cfg, hash, sentences[|sentences| - 1], weight);
    }
  }

  // ---------------------------------------------------------------------
  // The vowel test as written

  /** As written, the vowel test never reaches its `return`: the log call at
      pyborg.py:291 reads `num_vowels`, a name bound nowhere, so
      `learn_sentence` raises NameError. It does so when the first word the
      loop stops at fails the vowel test and none of the tests before it. */
  predicate RaisesNameError(st: Store, cfg: Settings, ws: seq<string>) {
    exists i :: 0 <= i < |ws| && !StopsQuietly(st, cfg, ws[i]) && VowelPoor(cfg, ws[i])
                && forall j :: 0 <= j < i ==> !Rejects(st, cfg, ws[j])
  }

  /** `learn_sentence` as written: the store it leaves and whether it raised. */
  function LearnSentenceAsWritten(st: Store, cfg: Settings, hash: string -> int, sentence: string, weight: int): (Store, bool) {
    if RaisesNameError(st, cfg, Split(sentence)) then (st, true)
    else (LearnSentence(st, cfg, hash, sentence, weight), false)
  }

  /** The loop of `learn` as written: a NameError ends it and leaves the
      remaining sentences unlearned. */
  function LearnAllAsWritten(st: Store, cfg: Settings, hash: string -> int, sentences: seq<string>, weight: int): (Store, bool) {
    if sentences == [] then (st, false)
    else
      var mid := LearnAllAsWritten(st, cfg, hash, sentences[..|sentences| - 1], weight);
      if mid.1 then mid else LearnSentenceAsWritten(mid.0, cfg, hash, sentences[|sentences| - 1], weight)
  }

  /** `learn(body, weight)` as written. */
  function LearnAsWritten(st: Store, cfg: Settings, hash: string -> int, body: string, weight: int): (Store, bool) {
    LearnAllAsWritten(st, cfg, hash, SplitOn(body, ". "), weight)
  }

  /** The raising sentence is one the corrected model refuses, and a single
      call leaves the same store either way: the exception comes before any
      update. */
  lemma LearnSentenceAsWrittenStore(st: Store, cfg: Settings, hash: string -> int, sentence: string, weight: int)
    ensures RaisesNameError(st, cfg, Split(sentence)) ==> Refused(st, cfg, Split(sentence))
    ensures LearnSentenceAsWritten(st, cfg, hash, sentence, weight).0 == LearnSentence(st, cfg, hash, sentence, weight)
  {
    var ws := Split(sentence);
    if RaisesNameError(st, cfg, ws) {
      var i :| 0 <= i < |ws| && !StopsQuietly(st, cfg, ws[i]) && VowelPoor(cfg, ws[i])
               && forall j :: 0 <= j < i ==> !Rejects(st, cfg, ws[j]);
      assert Rejects(st, cfg, ws[i]);
    }
  }

  /** A body whose sentences raise nothing is learned alike as written and
      as corrected. */
  lemma {:induction false} LearnAllAsWrittenAgrees(st: Store, cfg: Settings, hash: string -> int, sentences: seq<string>, weight: int)
    ensures !LearnAllAsWritten(st, cfg, hash, sentences, weight).1
            ==> LearnAllAsWritten(st, cfg, hash, sentences, weight).0 == LearnAll(st, cfg, hash, sentences, weight)
  {
    if sentences != [] {
      LearnAllAsWrittenAgrees(st, cfg, hash, sentences[..|sentences| - 1], weight);
    }
  }

  /** As written, a first sentence that raises ends `learn`: nothing after
      it is learned. */
  lemma {:induction false} LearnAsWrittenStops(st: Store, cfg: Settings, hash: string -> int, s: string, rest: seq<string>, weight: int)
    requires RaisesNameError(st, cfg, Split(s))
    ensures LearnAllAsWritten(st, cfg, hash, [s] + rest, weight) == (st, true)
  {
    if rest != [] {
      assert ([s] + rest)[..|rest|] == [s] + rest[..|rest| - 1];
      LearnAsWrittenStops(st, cfg, hash, s, rest[..|rest| - 1], weight);
    }
  }

  /** `learn` over one more sentence learns it after the others. */
  lemma LearnAllSnoc(st: Store, cfg: Settings, hash: string -> int, ss: seq<string>, s: string, weight: int)
    ensures LearnAll(st, cfg, hash, ss + [s], weight) == LearnSentence(LearnAll(st, cfg, hash, ss, weight), cfg, hash, s, weight)
  {
    assert (ss + [s])[..|ss|] == ss;
  }

  /** As intended, a refused first sentence is skipped and the rest of the
      body is learned as if it stood alone. */
  lemma {:induction false} LearnSkipsRefused(st: Store, cfg: Settings, hash: string -> int, s: string, rest: seq<string>, weight: int)
    requires Refused(st, cfg, Split(s))
    ensures LearnAll(st, cfg, hash, [s] + rest, weight) == LearnAll(st, cfg, hash, rest, weight)
  {
    if rest == [] {
      LearnAllSnoc(st, cfg, hash, [], s, weight);
      LearnRefused(st, cfg, hash, s, weight);
      assert [s] + rest == [] + [s];
    } else {
      var init, last := rest[..|rest| - 1], rest[|rest| - 1];
      LearnSkipsRefused(st, cfg, hash, s, init, weight);
      LearnAllSnoc(st, cfg, hash, [s] + init, last, weight);
      LearnAllSnoc(st, cfg, hash, init, last, weight);
      assert [s] + init + [last] == [s] + rest && init + [last] == rest;
    }
  }

  /** "rhythm" counted byte by byte: six letters, no digit, one vowel. */
  lemma RhythmCounts()
    ensures CountAlpha("rhythm") == 6 && CountDigits("rhythm") == 0 && CountVowels("rhythm") == 1
  {
    RhythmPrefixes();
    assert CountVowels("rhy") == 1;
  }

  /** The prefixes of "rhythm", as the counting functions take them. */
  lemma RhythmPrefixes()
    ensures "rhythm"[..5] == "rhyth" && "rhyth"[..4] == "rhyt" && "rhyt"[..3] == "rhy"
    ensures "rhy"[..2] == "rh" && "rh"[..1] == "r" && "r"[..0] == ""
  {
  }

  /** "hello" has no digit. */
  lemma HelloCounts()
    ensures CountDigits("hello") == 0
  {
    assert "hello"[..4] == "hell" && "hell"[..3] == "hel" && "hel"[..2] == "he";
    assert "he"[..1] == "h" && "h"[..0] == "";
  }

  /** With learning on and a minimum vowel ratio above 1/6 (the default
      0.25 of pyborg.py:925 is one), the sentence "rhythm" (one vowel in six
      bytes) raises NameError as written. */
  lemma RhythmRaises(st: Store, cfg: Settings)
    requires st.learning && !cfg.censored("rhythm") && cfg.maxWordLength >= 6
    requires cfg.vowelRatioDen < 6 * cfg.vowelRatioNum
    ensures RaisesNameError(st, cfg, Split("rhythm"))
  {
    RhythmIsToken();
    SplitToken("rhythm");
    RhythmCounts();
    assert !StopsQuietly(st, cfg, Split("rhythm")[0]) && VowelPoor(cfg, Split("rhythm")[0]);
  }

  /** "rhythm" holds no whitespace. */
  lemma RhythmIsToken()
    ensures IsToken("rhythm")
  {
  }

  /** "hello" holds no whitespace. */
  lemma HelloIsToken()
    ensures IsToken("hello")
  {
  }

  /** The sentence "hello" is learned into an empty store. */
  lemma HelloLearned(cfg: Settings, hash: string -> int)
    requires !cfg.censored("hello") && cfg.maxWordLength >= 5
    ensures "hello" in LearnSentence(Empty(true), cfg, hash, "hello", 1).words
  {
    HelloIsToken();
    SplitToken("hello");
    HelloCounts();
    assert !Refused(Empty(true), cfg, ["hello"]);
    assert Nicks(["hello"]) == ["hello"];
    LinkWordsKeys(map[], ["hello"], hash("hello"), 1);
  }

  /** The body "rhythm. hello", whose pieces are "rhythm" and "hello":
      as written `learn` stops at the NameError and learns nothing; as
      intended it skips "rhythm" and learns "hello". */
  lemma VowelPoorBodyExample(cfg: Settings, hash: string -> int)
    requires !cfg.censored("rhythm") && !cfg.censored("hello") && cfg.maxWordLength >= 6
    requires cfg.vowelRatioDen < 6 * cfg.vowelRatioNum
    ensures LearnAllAsWritten(Empty(true), cfg, hash, ["rhythm", "hello"], 1) == (Empty(true), true)
    ensures "hello" in LearnAll(Empty(true), cfg, hash, ["rhythm", "hello"], 1).words
  {
    var st := Empty(true);
    RhythmRaises(st, cfg);
    LearnAsWrittenStops(st, cfg, hash, "rhythm", ["hello"], 1);
    LearnSentenceAsWrittenStore(st, cfg, hash, "rhythm", 1);
    LearnSkipsRefused(st, cfg, hash, "rhythm", ["hello"], 1);
    assert LearnAll(st, cfg, hash, ["hello"], 1) == LearnSentence(st, cfg, hash, "hello", 1);
    HelloLearned(cfg, hash);
  }
}
