/** The `PyborgBrain` object (pyborg.py:116-883): the word index, the line
    table and the counters as fields updated in place by its methods. Each
    method is proved to leave the store in the state the corresponding pure
    function of the Learning, Unlearning, Replacing, Maintenance and
    Generation modules describes, so everything proved about those functions
    holds of the object. */
module Brain {
  import opened Text
  import opened Knowledge
  import opened Learning
  import opened Unlearning
  import opened Replacing
  import opened Maintenance
  import opened Generation
  import Replying

  /** What `known` reports: the totals when no word is given, otherwise the
      context count of each lower-cased word (None for an unknown word). */
  datatype KnownReport =
    | Summary(words: int, contexts: int, lines: nat)
    | Counts(entries: seq<(string, Option<nat>)>)

  /** Number of contexts of `w`, or None when it is not known. */
  function ContextCount(words: Index, w: string): (r: Option<nat>)
    ensures r.Some? <==> w in words
    ensures r.Some? ==> r.value == |words[w]|
  {
    if w in words then Some(|words[w]|) else None
  }

  /** The index during the checkdict loop once the words of `done` are
      audited: audited words keep their good references, or vanish. */
  ghost function AuditedWords(st: Store, done: set<string>): Index
    requires CanCheck(st)
  {
    map w | w in st.words && (w !in done || GoodRefs(st.lines, w, st.words[w]) != []) ::
      if w in done then GoodRefs(st.lines, w, st.words[w]) else st.words[w]
  }

  /** The broken references found among the words of `done`. */
  ghost function BrokenIn(st: Store, done: set<string>): Index {
    map w | w in st.words && w in done :: BrokenRefs(st.lines, st.words[w])
  }

  /** The bad references found among the words of `done`. */
  ghost function BadIn(st: Store, done: set<string>): Index
    requires CanCheck(st)
  {
    map w | w in st.words && w in done :: BadRefs(st.lines, w, st.words[w])
  }

  /** The index after auditing the words of `ws` in turn. */
  ghost function Audited(st: Store, ws: seq<string>): Index
    requires CanCheck(st) && forall w :: w in ws ==> w in st.words
  {
    if ws == [] then st.words
    else
      var m := Audited(st, ws[..|ws| - 1]);
      var w := ws[|ws| - 1];
      var g := GoodRefs(st.lines, w, st.words[w]);
      if g == [] then m - {w} else m[w := g]
  }

  /** How many of the words of `ws` the audit deletes. */
  ghost function Lost(st: Store, ws: seq<string>): nat
    requires CanCheck(st) && forall w :: w in ws ==> w in st.words
  {
    if ws == [] then 0
    else
      var w := ws[|ws| - 1];
      Lost(st, ws[..|ws| - 1]) + (if GoodRefs(st.lines, w, st.words[w]) == [] then 1 else 0)
  }

  /** The broken references found in the lists of `ws`. */
  ghost function FoundBroken(st: Store, ws: seq<string>): nat
    requires forall w :: w in ws ==> w in st.words
  {
    if ws == [] then 0
    else FoundBroken(st, ws[..|ws| - 1]) + |BrokenRefs(st.lines, st.words[ws[|ws| - 1]])|
  }

  /** The bad references found in the lists of `ws`. */
  ghost function FoundBad(st: Store, ws: seq<string>): nat
    requires CanCheck(st) && forall w :: w in ws ==> w in st.words
  {
    if ws == [] then 0
    else FoundBad(st, ws[..|ws| - 1]) + |BadRefs(st.lines, ws[|ws| - 1], st.words[ws[|ws| - 1]])|
  }

  /** The linking loop of `learn_sentence` (pyborg.py:313-320) on the
      index and the two counters: each position of the new line `h` is
      appended to its word's list, a word met for the first time is
      counted, and so is every context. */
  method Link(words: Index, numWords: int, numContexts: int, toks: seq<string>, h: int)
    returns (index: Index, known: int, contexts: int)
    ensures index == LinkWords(words, toks, h, |toks|)
    ensures known == numWords + |TokenSet(toks, |toks|) - words.Keys|
    ensures contexts == numContexts + |toks|
  {
    index, known, contexts := words, numWords, numContexts;
    for i := 0 to |toks|
      invariant index == LinkWords(words, toks, h, i)
      invariant known == numWords + Met(words.Keys, toks, i)
      invariant contexts == numContexts + i
    {
      var word := toks[i];
      LinkWordsKeys(words, toks, h, i);
      if word !in index {
        known := known + 1;
      }
      assert known == numWords + Met(words.Keys, toks, i + 1);
      index := index[word := ListOf(index, word) + [Ref(h, i)]];
      assert index == LinkWords(words, toks, h, i + 1);
      contexts := contexts + 1;
    }
    MetFold(words.Keys, toks, |toks|);
  }

  /** The body of `learn_sentence` (pyborg.py:252-325) on the store the
      brain's fields hold. */
  method LearnInto(st: Store, cfg: Settings, hash: string -> int, sentence: string, weight: int) returns (r: Store)
    ensures r == Learning.LearnSentence(st, cfg, hash, sentence, weight)
  {
    var ws := Split(sentence);
    var ok := Screen(st, cfg, ws);
    if !ok {
      LearnRefused(st, cfg, hash, sentence, weight);
      return st;
    }
    var toks := Nicks(ws);
    var h := hash(Join(toks));
    var st1: Store;
    if h in st.lines {
      st1 := st.(lines := st.lines[h := Line(st.lines[h].tokens, st.lines[h].weight + weight)]);
      assert st1 == Reweigh(st, h, weight);
    } else if FewContextsPerWord(st) || st.learning {
      st1 := StoreLine(st, toks, h, weight);
    } else {
      st1 := st;
    }
    LearnCases(st, cfg, hash, sentence, weight, st1);
    r := st1;
    if r.numWords >= cfg.maxWords {
      r := r.(learning := false);
    }
  }

  /** Storing a new line and linking each of its positions
      (pyborg.py:311-320). */
  method StoreLine(st: Store, toks: seq<string>, h: int, weight: int) returns (r: Store)
    ensures r == AddLine(st, toks, h, weight)
  {
    var index, known, contexts := Link(st.words, st.numWords, st.numContexts, toks, h);
    r := st.(lines := st.lines[h := Line(toks, weight)], words := index, numWords := known, numContexts := contexts);
  }

  /** The rewriting loop of `replace_word` (pyborg.py:582-593): every
      reference whose position still holds `from` gets `to` there, and its
      line's weight is doubled. */
  method RewriteLines(l0: map<int, Line>, pointers: seq<Ref>, from: string, to: string)
    returns (lines: map<int, Line>, changed: nat)
    requires RefsInRange(l0, pointers)
    ensures (lines, changed) == Rewrite(l0, pointers, from, to, |pointers|)
  {
    lines, changed := l0, 0;
    for i := 0 to |pointers|
      invariant (lines, changed) == Rewrite(l0, pointers, from, to, i)
    {
      var q := pointers[i];
      var line := lines[q.line].tokens;
      var number := lines[q.line].weight;
      if line[q.pos] != from {
        continue;
      }
      lines := lines[q.line := Line(line[q.pos := to], number + number)];
      changed := changed + 1;
    }
  }

  /** The collecting loop of `purge` (pyborg.py:711-727): the rare words
      in the order given, stopping once `cMax` of them are collected. */
  method SelectRare(words: Index, order: seq<string>, cMax: int) returns (liste: seq<string>)
    requires forall w :: w in order ==> w in words
    ensures liste == Select(words, order, cMax, [])
  {
    liste := [];
    var i := 0;
    while i < |order|
      invariant 0 <= i <= |order|
      invariant |liste| < cMax || cMax < 1
      invariant Select(words, order, cMax, []) == Select(words, order[i..], cMax, liste)
    {
      var w := order[i];
      var _, chars, digits := ClassifyChars(w);
      assert order[i..][1..] == order[i + 1..];
      if |words[w]| < 2 || (digits > 0 && chars > 0) {
        liste := liste + [w];
        if |liste| == cMax {
          break;
        }
      }
      i := i + 1;
    }
  }

  /** Once the words pass, learning a sentence is the store after storing
      the line, with learning switched off at the word limit. */
  lemma LearnCases(st: Store, cfg: Settings, hash: string -> int, sentence: string, weight: int, st1: Store)
    requires !Refused(st, cfg, Split(sentence))
    requires var h := hash(Join(Nicks(Split(sentence))));
             st1 == if h in st.lines then Reweigh(st, h, weight)
                    else if FewContextsPerWord(st) || st.learning then AddLine(st, Nicks(Split(sentence)), h, weight)
                    else st
    ensures Learning.LearnSentence(st, cfg, hash, sentence, weight)
            == if st1.numWords >= cfg.maxWords then st1.(learning := false) else st1
  {
  }

  /** The word filters of `learn_sentence` (pyborg.py:260-292): false at
      the first word that stops the sentence, or for no word at all. */
  method Screen(st: Store, cfg: Settings, ws: seq<string>) returns (ok: bool)
    ensures ok == !Refused(st, cfg, ws)
  {
    if ws == [] {
      return false;
    }
    for i := 0 to |ws|
      invariant forall j :: 0 <= j < i ==> !Rejects(st, cfg, ws[j])
    {
      var word := ws[i];
      if cfg.censored(word) {
        assert Rejects(st, cfg, ws[i]);
        return false;
      }
      if !st.learning && word !in st.words {
        assert Rejects(st, cfg, ws[i]);
        return false;
      }
      if |word| > cfg.maxWordLength {
        assert Rejects(st, cfg, ws[i]);
        return false;
      }
      var vowels, chars, digits := ClassifyChars(word);
      if chars > 0 && digits > 0 {
        assert Rejects(st, cfg, ws[i]);
        return false;
      }
      if chars > 0 && |word| > 5 && vowels * cfg.vowelRatioDen < cfg.vowelRatioNum * |word| {
        assert Rejects(st, cfg, ws[i]);
        return false;
      }
    }
    return true;
  }

  /** Counting the vowels, letters and digits of a word byte by byte, as
      the loops at pyborg.py:280-286 and pyborg.py:719-723 do. */
  method ClassifyChars(w: string) returns (vowels: nat, chars: nat, digits: nat)
    ensures vowels == CountVowels(w) && chars == CountAlpha(w) && digits == CountDigits(w)
  {
    vowels, chars, digits := 0, 0, 0;
    for k := 0 to |w|
      invariant vowels == CountVowels(w[..k]) && chars == CountAlpha(w[..k]) && digits == CountDigits(w[..k])
    {
      assert w[..k + 1][..k] == w[..k];
      if IsVowel(w[k]) {
        vowels := vowels + 1;
      }
      if IsAlpha(w[k]) {
        chars := chars + 1;
      }
      if IsDigit(w[k]) {
        digits := digits + 1;
      }
    }
    assert w[..|w|] == w;
  }

  /** The second loop of `unlearn_word` (pyborg.py:362-373): every touched
      word loses its references into the deleted lines, and goes when none
      is left; one word counted off per deleted word, one context per
      removed reference. */
  method Repair(m0: Index, numWords: int, numContexts: int, touched: set<string>, dell: set<int>)
    returns (words: Index, nw: int, nc: int)
    requires touched <= m0.Keys
    ensures words == UnlearnWords(m0, touched, dell)
    ensures nw == numWords - |m0.Keys - words.Keys|
    ensures nc == numContexts - (TotalRefs(m0) - TotalRefs(words))
  {
    words, nw, nc := m0, numWords, numContexts;
    var pending := touched;
    ghost var visited: seq<string> := [];
    while pending != {}
      invariant pending <= touched && Distinct(visited)
      invariant forall v :: v in visited ==> v in m0
      invariant forall v :: v in visited <==> v in touched && v !in pending
      invariant words == Repaired(m0, visited, dell)
      invariant nw == numWords - Vaped(m0, visited, dell)
      invariant nc == numContexts - Dropped(m0, visited, dell)
      decreases |pending|
    {
      var x := AnyOf(pending);
      VisitOneMore(visited, x);
      words, nw, nc := RepairWord(m0, visited, dell, x, words, nw, nc);
      visited := visited + [x];
      pending := pending - {x};
    }
    RepairFold(m0, visited, dell);
    ElemsMembers(visited);
    assert Elems(visited) == touched;
  }

  /** One iteration of the repair loop (pyborg.py:363-374): the word's
      list loses its references into deleted lines, and the word goes when
      none is left. */
  method RepairWord(m0: Index, ghost visited: seq<string>, dell: set<int>, x: string, words0: Index, nw0: int, nc0: int)
    returns (words: Index, nw: int, nc: int)
    requires (forall v :: v in visited ==> v in m0) && x in m0 && x !in visited
    requires words0 == Repaired(m0, visited, dell)
    ensures words == Repaired(m0, visited + [x], dell)
    ensures nw == nw0 - (Vaped(m0, visited + [x], dell) - Vaped(m0, visited, dell))
    ensures nc == nc0 - (Dropped(m0, visited + [x], dell) - Dropped(m0, visited, dell))
  {
    RepairedUntouched(m0, visited, x, dell);
    RepairedNext(m0, visited, x, dell);
    var list, dropped := Prune(words0[x], dell);
    words, nw, nc := words0, nw0, nc0 - dropped;
    if |list| == 0 {
      words := words - {x};
      nw := nw - 1;
    } else {
      words := words[x := list];
    }
  }

  /** The backward deleting loop of `unlearn_word` for one word
      (pyborg.py:366-370): the references into deleted lines go, and are
      counted. */
  method Prune(list0: seq<Ref>, dell: set<int>) returns (list: seq<Ref>, dropped: nat)
    ensures list == KeepRefs(list0, dell) && dropped == |list0| - |list|
  {
    list := list0;
    dropped := 0;
    var y := |list|;
    while y > 0
      invariant 0 <= y <= |list0| && y <= |list|
      invariant list[..y] == list0[..y]
      invariant list[y..] == KeepRefs(list0[y..], dell)
      invariant dropped == |list0| - |list|
    {
      y := y - 1;
      KeepRefsStep(list0, y, dell);
      assert list[y] == list0[y];
      if list[y].line in dell {
        list := list[..y] + list[y + 1..];
        dropped := dropped + 1;
      }
    }
    assert list0[0..] == list0 && list[0..] == list;
  }

  /** The loop of `checkdict` (pyborg.py:653-674) over the words of `st`
      in `order`: the new index and word count, and the broken and bad
      references found. */
  method AuditAll(st: Store, order: seq<string>) returns (words: Index, numWords: int, broken: nat, bad: nat)
    requires CanCheck(st) && IsOrderOf(order, st.words.Keys)
    ensures words == Audited(st, order) && numWords == st.numWords - Lost(st, order)
    ensures broken == FoundBroken(st, order) && bad == FoundBad(st, order)
  {
    words, numWords := st.words, st.numWords;
    broken, bad := 0, 0;
    for i := 0 to |order|
      invariant words == Audited(st, order[..i])
      invariant numWords == st.numWords - Lost(st, order[..i])
      invariant broken == FoundBroken(st, order[..i]) && bad == FoundBad(st, order[..i])
    {
      var w := order[i];
      OrderNext(st, order, i);
      var wlist, nb, nd := AuditLinks(st.lines, w, words[w]);
      broken, bad := broken + nb, bad + nd;
      if |wlist| == 0 {
        words := words - {w};
        numWords := numWords - 1;
      } else {
        words := words[w := wlist];
      }
    }
    assert order[..|order|] == order;
  }

  /** `checkdict` (pyborg.py:648-677) on the store the brain's fields
      hold: the audited store and the two counts. */
  method CheckStore(st: Store, order: seq<string>) returns (r: Store, broken: nat, bad: nat)
    requires CanCheck(st) && IsOrderOf(order, st.words.Keys)
    ensures (r, broken, bad) == Maintenance.Checkdict(st)
  {
    var words, numWords;
    words, numWords, broken, bad := AuditAll(st, order);
    AuditOrder(st, order);
    r := st.(words := words, numWords := numWords);
  }

  /** The backward loop of `checkdict` over the list of `w`
      (pyborg.py:655-670): the list without its broken and bad references,
      and how many of each it held. */
  method AuditLinks(lines: map<int, Line>, w: string, list: seq<Ref>) returns (wlist: seq<Ref>, broken: nat, bad: nat)
    requires InRange(lines, list)
    ensures wlist == GoodRefs(lines, w, list)
    ensures broken == |BrokenRefs(lines, list)| && bad == |BadRefs(lines, w, list)|
  {
    wlist := list;
    ghost var l0 := wlist;
    ghost var kept: seq<Ref> := [];
    InRangeSuffixes(lines, l0);
    broken, bad := 0, 0;
    var i := |wlist|;
    assert l0[i..] == [];
    while i > 0
      invariant 0 <= i <= |l0|
      invariant wlist == l0[..i] + kept
      invariant kept == GoodRefs(lines, w, l0[i..])
      invariant broken == |BrokenRefs(lines, l0[i..])|
      invariant bad == |BadRefs(lines, w, l0[i..])|
    {
      i := i - 1;
      AuditTail(lines, w, l0, i);
      SplitAt(l0, i, kept);
      var q := wlist[i];
      if q.line !in lines {
        broken := broken + 1;
        wlist := wlist[..i] + wlist[i + 1..];
      } else {
        var splitLine := lines[q.line].tokens;
        if splitLine[q.pos] != w {
          bad := bad + 1;
          wlist := wlist[..i] + wlist[i + 1..];
        } else {
          kept := [q] + kept;
        }
      }
    }
    assert l0[0..] == l0;
  }

  /** The first loop of `unlearn_word` (pyborg.py:346-358): delete every
      line whose padded text contains the padded phrase, collecting the
      deleted keys and the words of the deleted lines. */
  method DeleteLines(l0: map<int, Line>, p: string) returns (lines: map<int, Line>, dell: set<int>, touched: set<string>)
    ensures dell == Matching(l0, p) && touched == Touched(l0, dell)
    ensures lines == l0 - dell
  {
    lines := l0;
    var context := " " + p + " ";
    dell, touched := {}, {};
    var todo := lines.Keys;
    while todo != {}
      invariant todo <= l0.Keys && todo !! dell
      invariant dell == Matching(l0, p) - todo
      invariant lines == l0 - dell
      invariant touched == Touched(l0, dell)
      decreases |todo|
    {
      var k := AnyOf(todo);
      todo := todo - {k};
      if Contains(Padded(lines[k].tokens), context) {
        touched := AddWords(touched, lines[k].tokens);
        TouchedAdd(l0, dell, k);
        dell := dell + {k};
        lines := lines - {k};
      }
    }
  }

  /** The inner loop at pyborg.py:356-358: every word of a deleted line is
      added to `wordlist`. */
  method AddWords(t0: set<string>, wlist: seq<string>) returns (touched: set<string>)
    ensures touched == t0 + WordsOf(wlist)
  {
    touched := t0;
    for j := 0 to |wlist|
      invariant touched == t0 + set i | 0 <= i < j :: wlist[i]
    {
      touched := touched + {wlist[j]};
    }
  }

  /** Some element of a non-empty set: the next key a `for` loop over a
      dictionary visits. */
  method AnyOf<T>(s: set<T>) returns (x: T)
    requires s != {}
    ensures x in s
  {
    x :| x in s;
  }

  class PyborgBrain {
    var words: Index
    var lines: map<int, Line>
    var numWords: int
    var numContexts: int
    var learning: bool
    /** The settings read by the brain. */
    const cfg: Settings
    /** Python's `hash` of a cleaned sentence. */
    const hash: string -> int

    /** The store the fields hold. */
    function State(): Store
      reads this
    {
      Store(words, lines, numWords, numContexts, learning)
    }

    /** A brain that knows nothing. */
    constructor(cfg: Settings, hash: string -> int, learning: bool)
      ensures State() == Empty(learning)
      ensures this.cfg == cfg && this.hash == hash
    {
      this.cfg := cfg;
      this.hash := hash;
      words := map[];
      lines := map[];
      numWords := 0;
      numContexts := 0;
      this.learning := learning;
    }

    /** `learn_sentence(sentence, weight)` (pyborg.py:252-325). */
    method LearnSentence(sentence: string, weight: int)
      modifies this
      ensures State() == Learning.LearnSentence(old(State()), cfg, hash, sentence, weight)
    {
      var r := LearnInto(State(), cfg, hash, sentence, weight);
      words, lines, numWords, numContexts, learning := r.words, r.lines, r.numWords, r.numContexts, r.learning;
    }

    /** `learn(body, weight)`: every ". "-separated sentence in turn
        (pyborg.py:327-333). */
    method Learn(body: string, weight: int)
      modifies this
      ensures State() == Learning.Learn(old(State()), cfg, hash, body, weight)
    {
      var parts := SplitOn(body, ". ");
      for i := 0 to |parts|
        invariant State() == LearnAll(old(State()), cfg, hash, parts[..i], weight)
      {
        assert parts[..i + 1][..i] == parts[..i];
        LearnSentence(parts[i], weight);
      }
      assert parts[..|parts|] == parts;
    }

    /** `unlearn_word(p)` (pyborg.py:335-374). Every word of a deleted line
        must be known, or the source raises KeyError at pyborg.py:364. */
    method UnlearnWord(p: string)
      requires CanUnlearn(State(), p)
      modifies this
      ensures State() == Unlearn(old(State()), p)
    {
      ghost var s0 := State();
      var dell, touched := DeleteMatching(p);
      TouchedAllKnown(s0, p);
      RepairLinks(touched, dell);
    }

    /** The second loop of `unlearn_word` (pyborg.py:362-373) on the fields. */
    method RepairLinks(touched: set<string>, dell: set<int>)
      requires touched <= words.Keys
      modifies this
      ensures words == UnlearnWords(old(words), touched, dell)
      ensures numWords == old(numWords) - |old(words).Keys - words.Keys|
      ensures numContexts == old(numContexts) - (TotalRefs(old(words)) - TotalRefs(words))
      ensures lines == old(lines) && learning == old(learning)
    {
      words, numWords, numContexts := Repair(words, numWords, numContexts, touched, dell);
    }

    /** The first loop of `unlearn_word` (pyborg.py:346-358) on the fields. */
    method DeleteMatching(p: string) returns (dell: set<int>, touched: set<string>)
      modifies this
      ensures dell == Matching(old(lines), p) && touched == Touched(old(lines), dell)
      ensures lines == old(lines) - dell
      ensures words == old(words) && numWords == old(numWords)
      ensures numContexts == old(numContexts) && learning == old(learning)
    {
      lines, dell, touched := DeleteLines(lines, p);
    }

    /** `replace_word(from, to)` (pyborg.py:575-607), with `to` keeping its
        list when it is `from` itself. The references of `from` must name
        existing lines and positions, or the source raises at pyborg.py:588. */
    method ReplaceWord(from: string, to: string) returns (outcome: Outcome)
      requires from in words ==> RefsInRange(lines, words[from])
      modifies this
      ensures (State(), outcome) == Replace(old(State()), from, to)
    {
      if from !in words {
        return NotKnown;
      }
      var changed;
      lines, changed := RewriteLines(lines, words[from], from, to);
      if to == from {
      } else if to in words {
        numWords := numWords - 1;
        words := words[to := words[to] + words[from]] - {from};
      } else {
        assert ListOf(words, to) + words[from] == words[from];
        words := words[to := words[from]] - {from};
      }
      return Replaced(changed);
    }

    /** `checkdict` (pyborg.py:648-677): drops every reference that names a
        missing line (broken) or a position holding another word (bad), and
        every word left without references; returns both counts. The words
        are visited in `order`, the dictionary's iteration order. */
    method Checkdict(order: seq<string>) returns (broken: nat, bad: nat)
      requires CanCheck(State()) && IsOrderOf(order, words.Keys)
      modifies this
      ensures State() == Maintenance.Checkdict(old(State())).0
      ensures broken == Maintenance.Checkdict(old(State())).1
      ensures bad == Maintenance.Checkdict(old(State())).2
    {
      var r;
      r, broken, bad := CheckStore(State(), order);
      words, numWords := r.words, r.numWords;
    }

    /** `rebuilddict` (pyborg.py:683-699): with learning on, forget
        everything and learn every old line again with its weight, visiting
        the line keys in `order` (the dictionary's iteration order). */
    method RebuildDict(order: seq<int>)
      requires IsOrderOf(order, lines.Keys)
      modifies this
      ensures State() == Rebuild(old(State()), cfg, hash, order)
    {
      if learning {
        var oldLines := lines;
        words := map[];
        lines := map[];
        numWords := 0;
        numContexts := 0;
        for i := 0 to |order|
          invariant State() == Replay(Empty(true), cfg, hash, oldLines, order[..i])
        {
          assert order[..i + 1][..i] == order[..i];
          var k := order[i];
          Learn(Join(oldLines[k].tokens), oldLines[k].weight);
        }
        assert order[..|order|] == order;
      }
    }

    /** `purge(cMax)` (pyborg.py:704-745): collect rare words in the
        dictionary's iteration order `order`, stopping when `cMax` are
        collected; with `cMax < 1` only report how many there are, otherwise
        unlearn each of them. Every unlearning must find the words of the
        lines it deletes (pyborg.py:364). */
    method Purge(order: seq<string>, cMax: int) returns (count: nat)
      requires IsOrderOf(order, words.Keys)
      requires cMax >= 1 ==> CanUnlearnAll(State(), Select(words, order, cMax, []))
      modifies this
      ensures (State(), count) == Maintenance.Purge(old(State()), order, cMax)
    {
      ghost var s0 := State();
      var liste := SelectRare(words, order, cMax);
      count := |liste|;
      if cMax < 1 {
        return;
      }
      for j := 0 to |liste|
        invariant UnlearnAll(s0, liste) == UnlearnAll(State(), liste[j..])
        invariant CanUnlearnAll(State(), liste[j..])
      {
        assert liste[j..][1..] == liste[j + 1..];
        UnlearnWord(liste[j]);
      }
    }

    /** `reply(body)` (pyborg.py:376-573), with `draws` feeding the calls
        to `random.randint`. */
    method Reply(body: string, draws: seq<int>) returns (r: Res<string>)
      ensures r == Generation.Reply(words, lines, cfg.ignoreList, body, draws)
    {
      r := Replying.ReplyTo(words, lines, cfg.ignoreList, body, draws);
    }

    /** `known(args)` (pyborg.py:609-634): the totals without arguments,
        otherwise each lower-cased word with its number of contexts. */
    method Known(args: seq<string>) returns (r: KnownReport)
      ensures args == [] ==> r == Summary(numWords, numContexts, |lines|)
      ensures args != [] ==> r.Counts? && |r.entries| == |args|
      ensures args != [] ==> forall i :: 0 <= i < |args| ==>
                r.entries[i].0 == Lower(args[i]) && r.entries[i].1 == ContextCount(words, Lower(args[i]))
    {
      if args == [] {
        return Summary(numWords, numContexts, |lines|);
      }
      var entries: seq<(string, Option<nat>)> := [];
      for i := 0 to |args|
        invariant |entries| == i
        invariant forall j :: 0 <= j < i ==> entries[j].0 == Lower(args[j]) && entries[j].1 == ContextCount(words, Lower(args[j]))
      {
        var word := Lower(args[i]);
        var count: Option<nat> := None;
        if word in words {
          count := Some(|words[word]|);
        }
        entries := entries + [(word, count)];
      }
      return Counts(entries);
    }
  }

  // ---------------------------------------------------------------------
  // Loop steps

  /** The words met for the first time among the first `n` positions. */
  ghost function Met(keys: set<string>, toks: seq<string>, n: nat): nat
    requires n <= |toks|
  {
    if n == 0 then 0
    else Met(keys, toks, n - 1) + (if toks[n - 1] in keys + TokenSet(toks, n - 1) then 0 else 1)
  }

  /** Counting the words met one position at a time counts every token not
      known before exactly once. */
  lemma {:induction false} MetFold(keys: set<string>, toks: seq<string>, n: nat)
    requires n <= |toks|
    ensures Met(keys, toks, n) == |TokenSet(toks, n) - keys|
  {
    if n == 0 {
      assert TokenSet(toks, n) - keys == {};
    } else {
      var k := n - 1;
      MetFold(keys, toks, k);
      NewWordsStep(keys, toks, k);
      assert Met(keys, toks, k + 1) == Met(keys, toks, k) + (if toks[k] in keys + TokenSet(toks, k) then 0 else 1);
    }
  }

  /** The words of one line. */
  ghost function WordsOf(s: seq<string>): set<string> {
    set i | 0 <= i < |s| :: s[i]
  }

  /** Deleting one more matching line adds its tokens to the touched words. */
  lemma TouchedAdd(lines: map<int, Line>, dell: set<int>, x: int)
    requires x in lines
    ensures Touched(lines, dell + {x}) == Touched(lines, dell) + WordsOf(lines[x].tokens)
  {
  }

  /** Every touched word is known when the unlearning can proceed. */
  lemma TouchedAllKnown(st: Store, p: string)
    requires CanUnlearn(st, p)
    ensures Touched(st.lines, Matching(st.lines, p)) <= st.words.Keys
  {
  }

  /** Before any word is repaired the index is the old one. */
  lemma UnlearnWordsNone(m: Index, dell: set<int>)
    ensures UnlearnWords(m, {}, dell) == m
  {
  }

  /** Unfolding the kept references of a suffix by one element. */
  lemma KeepRefsStep(s: seq<Ref>, y: nat, dell: set<int>)
    requires y < |s|
    ensures KeepRefs(s[y..], dell) == (if s[y].line in dell then [] else [s[y]]) + KeepRefs(s[y + 1..], dell)
  {
    assert s[y..][1..] == s[y + 1..];
  }

  /** Repairing one more touched word: its list loses the references into
      deleted lines, and the word goes when nothing is left. */
  lemma RepairStep(m: Index, words: Index, done: set<string>, x: string, dell: set<int>)
    requires x in m && x !in done
    requires words == UnlearnWords(m, done, dell)
    ensures x in words && words[x] == m[x]
    ensures var k := KeepRefs(m[x], dell);
            && (k == [] ==> words[x := k] - {x} == UnlearnWords(m, done + {x}, dell))
            && (k != [] ==> words[x := k] == UnlearnWords(m, done + {x}, dell))
  {
  }

  /** The index after repairing the words of `ws` in turn. */
  ghost function Repaired(m: Index, ws: seq<string>, dell: set<int>): Index
    requires forall w :: w in ws ==> w in m
  {
    if ws == [] then m
    else
      var p := Repaired(m, ws[..|ws| - 1], dell);
      var x := ws[|ws| - 1];
      var k := KeepRefs(m[x], dell);
      if k == [] then p - {x} else p[x := k]
  }

  /** How many of the words of `ws` the repair deletes. */
  ghost function Vaped(m: Index, ws: seq<string>, dell: set<int>): nat
    requires forall w :: w in ws ==> w in m
  {
    if ws == [] then 0
    else Vaped(m, ws[..|ws| - 1], dell) + (if KeepRefs(m[ws[|ws| - 1]], dell) == [] then 1 else 0)
  }

  /** How many references the repair of the words of `ws` removes. */
  ghost function Dropped(m: Index, ws: seq<string>, dell: set<int>): int
    requires forall w :: w in ws ==> w in m
  {
    if ws == [] then 0
    else
      var x := ws[|ws| - 1];
      Dropped(m, ws[..|ws| - 1], dell) + (|m[x]| - |KeepRefs(m[x], dell)|)
  }

  /** A word not yet repaired still has its old list. */
  lemma {:induction false} RepairedUntouched(m: Index, ws: seq<string>, x: string, dell: set<int>)
    requires (forall v :: v in ws ==> v in m) && x in m && x !in ws
    ensures x in Repaired(m, ws, dell) && Repaired(m, ws, dell)[x] == m[x]
  {
    if ws != [] {
      RepairedUntouched(m, ws[..|ws| - 1], x, dell);
    }
  }

  /** Visiting one more word. */
  lemma VisitOneMore(ws: seq<string>, x: string)
    requires Distinct(ws) && x !in ws
    ensures Distinct(ws + [x]) && (ws + [x])[..|ws|] == ws && (ws + [x])[|ws|] == x
    ensures forall v :: v in ws + [x] <==> v in ws || v == x
  {
    assert (ws + [x])[..|ws|] == ws;
  }

  /** The folds of the repair over one more word. */
  lemma RepairedNext(m: Index, ws: seq<string>, x: string, dell: set<int>)
    requires (forall v :: v in ws ==> v in m) && x in m
    ensures forall v :: v in ws + [x] ==> v in m
    ensures var p := Repaired(m, ws, dell);
            var k := KeepRefs(m[x], dell);
            && Repaired(m, ws + [x], dell) == (if k == [] then p - {x} else p[x := k])
            && Vaped(m, ws + [x], dell) == Vaped(m, ws, dell) + (if k == [] then 1 else 0)
            && Dropped(m, ws + [x], dell) == Dropped(m, ws, dell) + (|m[x]| - |k|)
  {
    assert (ws + [x])[..|ws|] == ws;
  }

  /** The index folded over the repaired words is the repair of their set. */
  lemma {:induction false} RepairFoldWords(m: Index, ws: seq<string>, dell: set<int>)
    requires (forall v :: v in ws ==> v in m) && Distinct(ws)
    ensures Repaired(m, ws, dell) == UnlearnWords(m, Elems(ws), dell)
  {
    if ws == [] {
      UnlearnWordsNone(m, dell);
    } else {
      var prev := ws[..|ws| - 1];
      LastNew(ws);
      RepairFoldWords(m, prev, dell);
      ElemsMembers(prev);
      RepairStep(m, Repaired(m, prev, dell), Elems(prev), ws[|ws| - 1], dell);
    }
  }

  /** The words lost by the repair are the keys it no longer has. */
  lemma {:induction false} RepairFoldVaped(m: Index, ws: seq<string>, dell: set<int>)
    requires (forall v :: v in ws ==> v in m) && Distinct(ws)
    ensures Vaped(m, ws, dell) == |m.Keys - Repaired(m, ws, dell).Keys|
  {
    if ws == [] {
      assert m.Keys - m.Keys == {};
    } else {
      var prev := ws[..|ws| - 1];
      var x := ws[|ws| - 1];
      LastNew(ws);
      RepairFoldVaped(m, prev, dell);
      RepairedUntouched(m, prev, x, dell);
      var p := Repaired(m, prev, dell);
      if KeepRefs(m[x], dell) == [] {
        LostOneMore(m.Keys, p, x);
      } else {
        assert p[x := KeepRefs(m[x], dell)].Keys == p.Keys;
      }
    }
  }

  /** The references removed by the repair are the ones the index lost. */
  lemma {:induction false} RepairFoldDropped(m: Index, ws: seq<string>, dell: set<int>)
    requires (forall v :: v in ws ==> v in m) && Distinct(ws)
    ensures Dropped(m, ws, dell) == TotalRefs(m) - TotalRefs(Repaired(m, ws, dell))
  {
    if ws != [] {
      var prev := ws[..|ws| - 1];
      var x := ws[|ws| - 1];
      LastNew(ws);
      RepairFoldDropped(m, prev, dell);
      RepairedUntouched(m, prev, x, dell);
      var p := Repaired(m, prev, dell);
      var k := KeepRefs(m[x], dell);
      TotalRefsUpdate(p, x, k);
      if k == [] {
        TotalRefsDelete(p, x);
      }
    }
  }

  /** The three folds of the repair loop, at once. */
  lemma RepairFold(m: Index, ws: seq<string>, dell: set<int>)
    requires (forall v :: v in ws ==> v in m) && Distinct(ws)
    ensures Repaired(m, ws, dell) == UnlearnWords(m, Elems(ws), dell)
    ensures Vaped(m, ws, dell) == |m.Keys - Repaired(m, ws, dell).Keys|
    ensures Dropped(m, ws, dell) == TotalRefs(m) - TotalRefs(Repaired(m, ws, dell))
  {
    RepairFoldWords(m, ws, dell);
    RepairFoldVaped(m, ws, dell);
    RepairFoldDropped(m, ws, dell);
  }

  /** Every suffix of a list in range is in range. */
  lemma InRangeSuffixes(lines: map<int, Line>, s: seq<Ref>)
    requires InRange(lines, s)
    ensures forall k :: 0 <= k <= |s| ==> InRange(lines, s[k..])
  {
    forall k | 0 <= k <= |s| ensures InRange(lines, s[k..]) {
      forall q | q in s[k..] ensures q in s {
      }
    }
  }

  /** One more reference of the backward audit loop, at index `i`. */
  lemma AuditTail(lines: map<int, Line>, w: string, s: seq<Ref>, i: nat)
    requires i < |s| && InRange(lines, s[i..]) && InRange(lines, s[i + 1..])
    ensures var q := s[i];
            && GoodRefs(lines, w, s[i..]) == (if RefValid(lines, w, q) then [q] else []) + GoodRefs(lines, w, s[i + 1..])
            && |BrokenRefs(lines, s[i..])| == |BrokenRefs(lines, s[i + 1..])| + (if q.line !in lines then 1 else 0)
            && |BadRefs(lines, w, s[i..])| == |BadRefs(lines, w, s[i + 1..])|
                 + (if q.line in lines && lines[q.line].tokens[q.pos] != w then 1 else 0)
  {
    assert s[i..][1..] == s[i + 1..];
  }

  /** Cutting `s[..i + 1] + t` around index `i`. */
  lemma SplitAt(s: seq<Ref>, i: nat, t: seq<Ref>)
    requires i < |s|
    ensures (s[..i + 1] + t)[i] == s[i]
    ensures (s[..i + 1] + t)[..i] + (s[..i + 1] + t)[i + 1..] == s[..i] + t
    ensures s[..i + 1] + t == s[..i] + ([s[i]] + t)
  {
    assert (s[..i + 1] + t)[..i] == s[..i];
    assert (s[..i + 1] + t)[i + 1..] == t;
  }

  /** Auditing one more word: its list keeps only its good references, and
      the word goes when none is left. */
  lemma AuditStep(st: Store, words: Index, done: set<string>, w: string)
    requires CanCheck(st) && w in st.words && w !in done
    requires words == AuditedWords(st, done)
    ensures w in words && words[w] == st.words[w]
    ensures var g := GoodRefs(st.lines, w, st.words[w]);
            && (g == [] ==> words - {w} == AuditedWords(st, done + {w}))
            && (g != [] ==> words[w := g] == AuditedWords(st, done + {w}))
  {
  }

  /** A word the audit deletes is one more word lost. */
  lemma LostOneMore(keys: set<string>, words: Index, w: string)
    requires w in words
    ensures |keys - (words - {w}).Keys| == |keys - words.Keys| + (if w in keys then 1 else 0)
  {
    if w in keys {
      assert keys - (words - {w}).Keys == (keys - words.Keys) + {w};
    } else {
      assert keys - (words - {w}).Keys == keys - words.Keys;
    }
  }

  /** Auditing one more word adds its broken and bad references to the totals. */
  lemma AuditCounts(st: Store, done: set<string>, w: string)
    requires CanCheck(st) && w in st.words && w !in done
    ensures TotalRefs(BrokenIn(st, done + {w})) == TotalRefs(BrokenIn(st, done)) + |BrokenRefs(st.lines, st.words[w])|
    ensures TotalRefs(BadIn(st, done + {w})) == TotalRefs(BadIn(st, done)) + |BadRefs(st.lines, w, st.words[w])|
  {
    assert BrokenIn(st, done + {w}) == BrokenIn(st, done)[w := BrokenRefs(st.lines, st.words[w])];
    TotalRefsUpdate(BrokenIn(st, done), w, BrokenRefs(st.lines, st.words[w]));
    assert BadIn(st, done + {w}) == BadIn(st, done)[w := BadRefs(st.lines, w, st.words[w])];
    TotalRefsUpdate(BadIn(st, done), w, BadRefs(st.lines, w, st.words[w]));
  }

  /** A word not yet audited still has its old list. */
  lemma {:induction false} AuditedUntouched(st: Store, ws: seq<string>, w: string)
    requires CanCheck(st) && (forall v :: v in ws ==> v in st.words)
    requires w in st.words && w !in ws
    ensures w in Audited(st, ws) && Audited(st, ws)[w] == st.words[w]
  {
    if ws != [] {
      AuditedUntouched(st, ws[..|ws| - 1], w);
    }
  }

  /** The next word of the iteration is still unaudited, and the folds
      over one more word take one step. */
  lemma OrderNext(st: Store, order: seq<string>, i: nat)
    requires CanCheck(st) && IsOrderOf(order, st.words.Keys) && i < |order|
    ensures forall v :: v in order[..i + 1] ==> v in st.words
    ensures order[..i + 1][..i] == order[..i]
    ensures order[i] in Audited(st, order[..i]) && Audited(st, order[..i])[order[i]] == st.words[order[i]]
    ensures InRange(st.lines, st.words[order[i]])
    ensures var m := Audited(st, order[..i]);
            var w := order[i];
            var g := GoodRefs(st.lines, w, st.words[w]);
            && Audited(st, order[..i + 1]) == (if g == [] then m - {w} else m[w := g])
            && Lost(st, order[..i + 1]) == Lost(st, order[..i]) + (if g == [] then 1 else 0)
            && FoundBroken(st, order[..i + 1]) == FoundBroken(st, order[..i]) + |BrokenRefs(st.lines, st.words[w])|
            && FoundBad(st, order[..i + 1]) == FoundBad(st, order[..i]) + |BadRefs(st.lines, w, st.words[w])|
  {
    assert order[..i + 1][..i] == order[..i];
    assert order[i] !in order[..i];
    AuditedUntouched(st, order[..i], order[i]);
  }

  /** The elements of a sequence, as a set. */
  ghost function Elems(ws: seq<string>): set<string> {
    if ws == [] then {} else Elems(ws[..|ws| - 1]) + {ws[|ws| - 1]}
  }

  lemma {:induction false} ElemsMembers(ws: seq<string>)
    ensures forall v :: v in Elems(ws) <==> v in ws
  {
    if ws != [] {
      ElemsMembers(ws[..|ws| - 1]);
      assert forall v :: v in ws <==> v in ws[..|ws| - 1] || v == ws[|ws| - 1];
    }
  }

  /** The last word of a sequence without repeats is not among the others. */
  lemma LastNew(ws: seq<string>)
    requires ws != [] && Distinct(ws)
    ensures forall v :: v in ws[..|ws| - 1] ==> v in ws
    ensures ws[|ws| - 1] !in ws[..|ws| - 1]
  {
  }

  /** The index folded over the audited words is the audit of their set. */
  lemma {:induction false} AuditFoldWords(st: Store, ws: seq<string>)
    requires CanCheck(st) && (forall v :: v in ws ==> v in st.words) && Distinct(ws)
    ensures Audited(st, ws) == AuditedWords(st, Elems(ws))
  {
    if ws == [] {
      assert AuditedWords(st, {}) == st.words;
    } else {
      var prev := ws[..|ws| - 1];
      var w := ws[|ws| - 1];
      LastNew(ws);
      AuditFoldWords(st, prev);
      ElemsMembers(prev);
      AuditStep(st, Audited(st, prev), Elems(prev), w);
    }
  }

  /** The words lost by the fold are the keys it no longer has. */
  lemma {:induction false} AuditFoldLost(st: Store, ws: seq<string>)
    requires CanCheck(st) && (forall v :: v in ws ==> v in st.words) && Distinct(ws)
    ensures Lost(st, ws) == |st.words.Keys - Audited(st, ws).Keys|
  {
    if ws == [] {
      assert st.words.Keys - st.words.Keys == {};
    } else {
      var prev := ws[..|ws| - 1];
      var w := ws[|ws| - 1];
      LastNew(ws);
      AuditFoldLost(st, prev);
      AuditedUntouched(st, prev, w);
      var m := Audited(st, prev);
      if GoodRefs(st.lines, w, st.words[w]) == [] {
        LostOneMore(st.words.Keys, m, w);
      } else {
        assert (m[w := GoodRefs(st.lines, w, st.words[w])]).Keys == m.Keys;
      }
    }
  }

  /** The broken references counted by the fold are those of the audited set. */
  lemma {:induction false} AuditFoldBroken(st: Store, ws: seq<string>)
    requires CanCheck(st) && (forall v :: v in ws ==> v in st.words) && Distinct(ws)
    ensures FoundBroken(st, ws) == TotalRefs(BrokenIn(st, Elems(ws)))
  {
    if ws == [] {
      AuditNone(st);
      TotalRefsAllEmpty(map[]);
    } else {
      var prev := ws[..|ws| - 1];
      LastNew(ws);
      AuditFoldBroken(st, prev);
      ElemsMembers(prev);
      AuditCounts(st, Elems(prev), ws[|ws| - 1]);
    }
  }

  /** The bad references counted by the fold are those of the audited set. */
  lemma {:induction false} AuditFoldBad(st: Store, ws: seq<string>)
    requires CanCheck(st) && (forall v :: v in ws ==> v in st.words) && Distinct(ws)
    ensures FoundBad(st, ws) == TotalRefs(BadIn(st, Elems(ws)))
  {
    if ws == [] {
      AuditNone(st);
      TotalRefsAllEmpty(map[]);
    } else {
      var prev := ws[..|ws| - 1];
      LastNew(ws);
      AuditFoldBad(st, prev);
      ElemsMembers(prev);
      AuditCounts(st, Elems(prev), ws[|ws| - 1]);
    }
  }

  /** Auditing every word once, in any order, is `checkdict`. */
  lemma AuditOrder(st: Store, ws: seq<string>)
    requires CanCheck(st) && Distinct(ws)
    requires forall v :: v in ws <==> v in st.words
    ensures var (r, broken, bad) := Maintenance.Checkdict(st);
            && r.words == Audited(st, ws) && r.numWords == st.numWords - Lost(st, ws)
            && r.lines == st.lines && r.numContexts == st.numContexts && r.learning == st.learning
            && broken == FoundBroken(st, ws) && bad == FoundBad(st, ws)
  {
    AuditFoldWords(st, ws);
    AuditFoldLost(st, ws);
    AuditFoldBroken(st, ws);
    AuditFoldBad(st, ws);
    ElemsMembers(ws);
    assert Elems(ws) == st.words.Keys;
    AuditDone(st, st.words.Keys);
  }

  /** Before any word is audited nothing is found. */
  lemma AuditNone(st: Store)
    requires CanCheck(st)
    ensures BrokenIn(st, {}) == map[] && BadIn(st, {}) == map[]
  {
  }

  /** Once every word is audited the loop state is the checkdict result. */
  lemma AuditDone(st: Store, done: set<string>)
    requires CanCheck(st) && done == st.words.Keys
    ensures AuditedWords(st, done) == CheckWords(st)
    ensures BrokenIn(st, done) == BrokenMap(st)
    ensures BadIn(st, done) == BadMap(st)
  {
  }
}
