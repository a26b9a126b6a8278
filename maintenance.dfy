/** The maintenance commands of PyborgBrain: `checkdict`, `rebuilddict` and
    `purge` (pyborg.py:648-743), as functions from the old store to the new
    one and their reports. */
module Maintenance {
  import opened Text
  import opened Knowledge
  import opened Learning
  import opened Unlearning

  // ---------------------------------------------------------------------
  // checkdict

  /** The lookup `split_line[word_num]` at pyborg.py:667 succeeds: every
      reference into an existing line names a position of that line. */
  ghost predicate CanCheck(st: Store) {
    forall w :: w in st.words ==> InRange(st.lines, st.words[w])
  }

  /** Every reference of `s` into an existing line names a position of it. */
  predicate InRange(lines: map<int, Line>, s: seq<Ref>) {
    forall q :: q in s && q.line in lines ==> q.pos < |lines[q.line].tokens|
  }

  /** The references of `s` into lines that exist and hold `w` at the named
      position, in order. */
  function GoodRefs(lines: map<int, Line>, w: string, s: seq<Ref>): (r: seq<Ref>)
    requires InRange(lines, s)
    ensures |r| <= |s|
    ensures forall q :: q in r <==> q in s && RefValid(lines, w, q)
  {
    if s == [] then []
    else (if RefValid(lines, w, s[0]) then [s[0]] else []) + GoodRefs(lines, w, s[1..])
  }

  /** The references of `s` into lines that no longer exist (pyborg.py:659-662). */
  function BrokenRefs(lines: map<int, Line>, s: seq<Ref>): seq<Ref> {
    if s == [] then [] else (if s[0].line !in lines then [s[0]] else []) + BrokenRefs(lines, s[1..])
  }

  /** The references of `s` into an existing line that holds another word
      at the named position (pyborg.py:664-670). */
  function BadRefs(lines: map<int, Line>, w: string, s: seq<Ref>): seq<Ref>
    requires InRange(lines, s)
  {
    if s == [] then []
    else (if s[0].line in lines && lines[s[0].line].tokens[s[0].pos] != w then [s[0]] else []) + BadRefs(lines, w, s[1..])
  }

  /** The index after the audit: every word keeps its good references and
      vanishes when none is left (pyborg.py:653-674). */
  ghost function CheckWords(st: Store): Index
    requires CanCheck(st)
  {
    map w | w in st.words && GoodRefs(st.lines, w, st.words[w]) != [] :: GoodRefs(st.lines, w, st.words[w])
  }

  /** The broken references of every word. */
  function BrokenMap(st: Store): Index {
    map w | w in st.words :: BrokenRefs(st.lines, st.words[w])
  }

  /** The bad references of every word. */
  function BadMap(st: Store): Index
    requires CanCheck(st)
  {
    map w | w in st.words :: BadRefs(st.lines, w, st.words[w])
  }

  /** `checkdict`: the audited store and the numbers of broken and of bad
      references removed. `num_contexts` is left as it was. */
  ghost function Checkdict(st: Store): (Store, nat, nat)
    requires CanCheck(st)
  {
    var m := CheckWords(st);
    (st.(words := m, numWords := st.numWords - |st.words.Keys - m.Keys|),
     TotalRefs(BrokenMap(st)), TotalRefs(BadMap(st)))
  }

  /** A list splits into its good, broken and bad references. */
  lemma {:induction false} AuditSplit(lines: map<int, Line>, w: string, s: seq<Ref>)
    requires InRange(lines, s)
    ensures |s| == |GoodRefs(lines, w, s)| + |BrokenRefs(lines, s)| + |BadRefs(lines, w, s)|
  {
    if s != [] {
      AuditSplit(lines, w, s[1..]);
    }
  }

  /** Every reference of a list of valid references is good, none broken or bad. */
  lemma {:induction false} AuditValid(lines: map<int, Line>, w: string, s: seq<Ref>)
    requires InRange(lines, s)
    requires forall q :: q in s ==> RefValid(lines, w, q)
    ensures GoodRefs(lines, w, s) == s
    ensures BrokenRefs(lines, s) == [] && BadRefs(lines, w, s) == []
  {
    if s != [] {
      AuditValid(lines, w, s[1..]);
      assert s == [s[0]] + s[1..];
    }
  }

  /** After `checkdict` every remaining reference is valid and no word is
      empty; the other invariants survive; `num_words` is decremented once
      per vanished word. */
  lemma CheckdictRepairs(st: Store)
    requires CanCheck(st)
    ensures var (r, _, _) := Checkdict(st);
            && RefsValid(r) && NoEmptyWords(r)
            && r.lines == st.lines && r.numContexts == st.numContexts
            && r.words.Keys <= st.words.Keys
            && r.numWords == st.numWords - |st.words.Keys - r.words.Keys|
            && (Indexed(st) ==> Indexed(r))
            && (NoDuplicateRefs(st) ==> NoDuplicateRefs(r))
  {
    var r := Checkdict(st).0;
    if Indexed(st) {
      forall h, i | h in r.lines && 0 <= i < |r.lines[h].tokens|
        ensures r.lines[h].tokens[i] in r.words && Ref(h, i) in r.words[r.lines[h].tokens[i]]
      {
        var w := st.lines[h].tokens[i];
        assert Ref(h, i) in GoodRefs(st.lines, w, st.words[w]);
      }
    }
    if NoDuplicateRefs(st) {
      forall w | w in r.words ensures Distinct(r.words[w]) {
        GoodRefsDistinct(st.lines, w, st.words[w]);
      }
    }
  }

  /** Filtering a list without repetitions gives a list without repetitions. */
  lemma {:induction false} GoodRefsDistinct(lines: map<int, Line>, w: string, s: seq<Ref>)
    requires InRange(lines, s)
    requires Distinct(s)
    ensures Distinct(GoodRefs(lines, w, s))
  {
    if s != [] {
      GoodRefsDistinct(lines, w, s[1..]);
      var rest := GoodRefs(lines, w, s[1..]);
      if RefValid(lines, w, s[0]) {
        assert s[0] !in s[1..] by {
          forall j | 0 <= j < |s| - 1 ensures s[1..][j] != s[0] {
            assert s[1..][j] == s[j + 1];
          }
        }
        var r := [s[0]] + rest;
        forall a, b | 0 <= a < b < |r| ensures r[a] != r[b] {
          assert r[b] == rest[b - 1] && rest[b - 1] in rest;
          if a > 0 {
            assert r[a] == rest[a - 1];
          }
        }
      }
    }
  }

  /** Running `checkdict` right after `checkdict` reports 0 broken and 0 bad
      references and changes nothing. */
  lemma CheckdictTwice(st: Store)
    requires CanCheck(st)
    ensures CanCheck(Checkdict(st).0)
    ensures Checkdict(Checkdict(st).0) == (Checkdict(st).0, 0, 0)
  {
    var r := Checkdict(st).0;
    CheckdictRepairs(st);
    AuditNothing(r);
  }

  /** Valid references name positions inside their lines. */
  lemma ValidInRange(st: Store)
    requires RefsValid(st)
    ensures CanCheck(st)
  {
    forall w | w in st.words ensures InRange(st.lines, st.words[w]) {
      forall q | q in st.words[w] && q.line in st.lines ensures q.pos < |st.lines[q.line].tokens| {
        assert RefValid(st.lines, w, q);
      }
    }
  }

  /** With valid references the audit keeps every list and finds nothing. */
  lemma AuditValidAll(st: Store)
    requires RefsValid(st) && NoEmptyWords(st) && CanCheck(st)
    ensures CheckWords(st) == st.words
    ensures forall w :: w in BrokenMap(st) ==> BrokenMap(st)[w] == []
    ensures forall w :: w in BadMap(st) ==> BadMap(st)[w] == []
  {
    forall w | w in st.words
      ensures GoodRefs(st.lines, w, st.words[w]) == st.words[w]
      ensures BrokenRefs(st.lines, st.words[w]) == [] && BadRefs(st.lines, w, st.words[w]) == []
    {
      AuditValid(st.lines, w, st.words[w]);
    }
  }

  /** On a store whose references are all valid and whose words are all
      non-empty (in particular on a consistent store), `checkdict` finds
      nothing and changes nothing. */
  lemma AuditNothing(st: Store)
    requires RefsValid(st) && NoEmptyWords(st)
    ensures CanCheck(st)
    ensures Checkdict(st) == (st, 0, 0)
  {
    ValidInRange(st);
    AuditValidAll(st);
    TotalRefsAllEmpty(BrokenMap(st));
    TotalRefsAllEmpty(BadMap(st));
    assert |st.words.Keys - CheckWords(st).Keys| == 0 by {
      assert st.words.Keys - CheckWords(st).Keys == {};
    }
  }

  /** Pointwise sums of lists over the same words add up. */
  lemma {:induction false} TotalRefsSum(m: Index, a: Index, b: Index, c: Index)
    requires m.Keys == a.Keys == b.Keys == c.Keys
    requires forall w :: w in m ==> |m[w]| == |a[w]| + |b[w]| + |c[w]|
    ensures TotalRefs(m) == TotalRefs(a) + TotalRefs(b) + TotalRefs(c)
    decreases |m|
  {
    if |m| == 0 {
      assert Slots(m) == {} && Slots(a) == {} && Slots(b) == {} && Slots(c) == {};
    } else {
      var k :| k in m;
      TotalRefsDelete(m, k);
      TotalRefsDelete(a, k);
      TotalRefsDelete(b, k);
      TotalRefsDelete(c, k);
      assert |(m - {k}).Keys| == |m.Keys - {k}| == |m| - 1;
      TotalRefsSum(m - {k}, a - {k}, b - {k}, c - {k});
    }
  }

  /** Dropping empty lists does not change the reference total. */
  lemma TotalRefsNonEmpty(m: Index, r: Index)
    requires r.Keys <= m.Keys
    requires forall w :: w in r ==> r[w] == m[w]
    requires forall w :: w in m && w !in r ==> m[w] == []
    ensures TotalRefs(r) == TotalRefs(m)
  {
    assert Slots(r) == Slots(m);
  }

  /** The good references of every word, empty lists included. */
  function GoodMap(st: Store): Index
    requires CanCheck(st)
  {
    map w | w in st.words :: GoodRefs(st.lines, w, st.words[w])
  }

  /** Every reference is good, broken or bad. */
  lemma AuditSplitAll(st: Store)
    requires CanCheck(st)
    ensures TotalRefs(st.words) == TotalRefs(CheckWords(st)) + TotalRefs(BrokenMap(st)) + TotalRefs(BadMap(st))
  {
    var full := GoodMap(st);
    forall w | w in st.words ensures |st.words[w]| == |full[w]| + |BrokenMap(st)[w]| + |BadMap(st)[w]| {
      AuditSplit(st.lines, w, st.words[w]);
    }
    TotalRefsSum(st.words, full, BrokenMap(st), BadMap(st));
    TotalRefsNonEmpty(full, CheckWords(st));
  }

  /** `checkdict` removes `broken + bad` references but does not count them
      off `num_contexts` (pyborg.py:662, 670): from exact counters it leaves
      `num_contexts` too high by exactly that number. */
  lemma CheckdictStaleContexts(st: Store)
    requires CanCheck(st) && CountersExact(st)
    ensures var (r, broken, bad) := Checkdict(st);
            r.numContexts == TotalRefs(r.words) + broken + bad
  {
    AuditSplitAll(st);
  }

  // ---------------------------------------------------------------------
  // rebuilddict

  /** Every element of `order` is a key of `lines`, each exactly once: an
      iteration order of `lines.keys()`. */
  predicate IsOrderOf<K(==)>(order: seq<K>, keys: set<K>) {
    Distinct(order) && (forall k :: k in order ==> k in keys) && (forall k :: k in keys ==> k in order)
  }

  /** Replaying old lines in the given order through `learn` with their
      weights (pyborg.py:698-699). */
  function Replay(st: Store, cfg: Settings, hash: string -> int, prior: map<int, Line>, order: seq<int>): Store
    requires forall k :: k in order ==> k in prior
  {
    if order == [] then st
    else
      var k := order[|order| - 1];
      Learn(Replay(st, cfg, hash, prior, order[..|order| - 1]), cfg, hash, Join(prior[k].tokens), prior[k].weight)
  }

  /** `rebuilddict`: when learning is on, discard words, lines and counters
      and learn every old line again; otherwise do nothing (pyborg.py:683-699). */
  function Rebuild(st: Store, cfg: Settings, hash: string -> int, order: seq<int>): Store
    requires IsOrderOf(order, st.lines.Keys)
  {
    if st.learning then Replay(Empty(true), cfg, hash, st.lines, order) else st
  }

  /** The replay as written: the NameError of the vowel test
      (pyborg.py:290-292) ends it, and the lines not yet replayed are lost. */
  function ReplayAsWritten(st: Store, cfg: Settings, hash: string -> int, prior: map<int, Line>, order: seq<int>): (Store, bool)
    requires forall k :: k in order ==> k in prior
  {
    if order == [] then (st, false)
    else
      var k := order[|order| - 1];
      var mid := ReplayAsWritten(st, cfg, hash, prior, order[..|order| - 1]);
      if mid.1 then mid else LearnAsWritten(mid.0, cfg, hash, Join(prior[k].tokens), prior[k].weight)
  }

  /** `rebuilddict` as written: the store it leaves and whether it raised. */
  function RebuildAsWritten(st: Store, cfg: Settings, hash: string -> int, order: seq<int>): (Store, bool)
    requires IsOrderOf(order, st.lines.Keys)
  {
    if st.learning then ReplayAsWritten(Empty(true), cfg, hash, st.lines, order) else (st, false)
  }

  /** A replay that raises nothing gives the same store as written and as
      corrected. */
  lemma {:induction false} ReplayAsWrittenAgrees(st: Store, cfg: Settings, hash: string -> int, prior: map<int, Line>, order: seq<int>)
    requires forall k :: k in order ==> k in prior
    ensures !ReplayAsWritten(st, cfg, hash, prior, order).1
            ==> ReplayAsWritten(st, cfg, hash, prior, order).0 == Replay(st, cfg, hash, prior, order)
  {
    if order != [] {
      var k := order[|order| - 1];
      ReplayAsWrittenAgrees(st, cfg, hash, prior, order[..|order| - 1]);
      var mid := ReplayAsWritten(st, cfg, hash, prior, order[..|order| - 1]);
      LearnAllAsWrittenAgrees(mid.0, cfg, hash, SplitOn(Join(prior[k].tokens), ". "), prior[k].weight);
    }
  }

  /** Learning the line "rhythm" into the emptied store: as written it
      raises, as intended it is refused; the store stays empty either way. */
  lemma RhythmLine(cfg: Settings, hash: string -> int)
    requires !cfg.censored("rhythm") && cfg.maxWordLength >= 6
    requires cfg.vowelRatioDen < 6 * cfg.vowelRatioNum
    ensures LearnAsWritten(Empty(true), cfg, hash, Join(["rhythm"]), 1) == (Empty(true), true)
    ensures Learn(Empty(true), cfg, hash, Join(["rhythm"]), 1) == Empty(true)
  {
    assert IsToken("rhythm");
    TokenSplitOnWhole("rhythm");
    RhythmRaises(Empty(true), cfg);
    LearnAsWrittenStops(Empty(true), cfg, hash, "rhythm", [], 1);
    assert ["rhythm"] + [] == ["rhythm"];
    LearnSkipsRefused(Empty(true), cfg, hash, "rhythm", [], 1);
  }

  /** Learning the line "hello" into the empty store learns the word. */
  lemma HelloLine(cfg: Settings, hash: string -> int)
    requires !cfg.censored("hello") && cfg.maxWordLength >= 5
    ensures "hello" in Learn(Empty(true), cfg, hash, Join(["hello"]), 1).words
  {
    assert IsToken("hello");
    TokenSplitOnWhole("hello");
    assert LearnAll(Empty(true), cfg, hash, ["hello"], 1) == LearnSentence(Empty(true), cfg, hash, "hello", 1);
    HelloLearned(cfg, hash);
  }

  /** A store of two one-word lines, "rhythm" then "hello", with learning on
      and a minimum vowel ratio above 1/6 (the default 0.25 of pyborg.py:925
      is one). As written, `rebuilddict` empties the store, raises on
      "rhythm" and never replays "hello": every line is lost. As intended
      it skips "rhythm" and learns "hello" again. */
  lemma RebuildAsWrittenLoses(cfg: Settings, hash: string -> int)
    requires !cfg.censored("rhythm") && !cfg.censored("hello") && cfg.maxWordLength >= 6
    requires cfg.vowelRatioDen < 6 * cfg.vowelRatioNum
    ensures var st := Store(map["rhythm" := [Ref(0, 0)], "hello" := [Ref(1, 0)]],
                            map[0 := Line(["rhythm"], 1), 1 := Line(["hello"], 1)], 2, 2, true);
            && IsOrderOf([0, 1], st.lines.Keys)
            && RebuildAsWritten(st, cfg, hash, [0, 1]) == (Empty(true), true)
            && "hello" in Rebuild(st, cfg, hash, [0, 1]).words
  {
    var lines := map[0 := Line(["rhythm"], 1), 1 := Line(["hello"], 1)];
    assert [0, 1][..1] == [0] && [0][..0] == [];
    RhythmLine(cfg, hash);
    HelloLine(cfg, hash);
    assert ReplayAsWritten(Empty(true), cfg, hash, lines, [0]) == (Empty(true), true);
    assert Replay(Empty(true), cfg, hash, lines, [0]) == Empty(true);
  }

  /** Replaying keeps a consistent store consistent. */
  lemma {:induction false} ReplayConsistent(st: Store, cfg: Settings, hash: string -> int, prior: map<int, Line>, order: seq<int>)
    requires Consistent(st)
    requires forall k :: k in order ==> k in prior
    ensures Consistent(Replay(st, cfg, hash, prior, order))
  {
    if order != [] {
      var k := order[|order| - 1];
      ReplayConsistent(st, cfg, hash, prior, order[..|order| - 1]);
      var mid := Replay(st, cfg, hash, prior, order[..|order| - 1]);
      LearnAllConsistent(mid, cfg, hash, SplitOn(Join(prior[k].tokens), ". "), prior[k].weight);
    }
  }

  /** Whatever state the store was in, a rebuild with learning on leaves it
      consistent: the counters are recounted from scratch. With learning
      off it changes nothing. */
  lemma RebuildConsistent(st: Store, cfg: Settings, hash: string -> int, order: seq<int>)
    requires IsOrderOf(order, st.lines.Keys)
    ensures st.learning ==> Consistent(Rebuild(st, cfg, hash, order))
    ensures !st.learning ==> Rebuild(st, cfg, hash, order) == st
  {
    if st.learning {
      EmptyConsistent(true);
      ReplayConsistent(Empty(true), cfg, hash, st.lines, order);
    }
  }

  // ---------------------------------------------------------------------
  // purge

  /** A word worth purging: fewer than two contexts, or letters mixed with
      digits (pyborg.py:718-731). */
  predicate Rare(m: Index, w: string)
    requires w in m
  {
    |m[w]| < 2 || (CountDigits(w) > 0 && CountAlpha(w) > 0)
  }

  /** `liste` after the selection loop over `order` starting from `acc`:
      rare words are collected until their number reaches `cMax`
      (pyborg.py:712-735). */
  function Select(m: Index, order: seq<string>, cMax: int, acc: seq<string>): seq<string>
    requires forall w :: w in order ==> w in m
    decreases |order|
  {
    if order == [] then acc
    else if Rare(m, order[0]) then
      if |acc| + 1 == cMax then acc + [order[0]] else Select(m, order[1..], cMax, acc + [order[0]])
    else Select(m, order[1..], cMax, acc)
  }

  /** The selection holds `acc` followed by rare words of `order` in order;
      it stops at `cMax` words when `cMax` is reachable, and otherwise takes
      every rare word. */
  lemma {:induction false} SelectSpec(m: Index, order: seq<string>, cMax: int, acc: seq<string>)
    requires forall w :: w in order ==> w in m
    requires |acc| < cMax || cMax < 1
    ensures var s := Select(m, order, cMax, acc);
            && acc <= s
            && (forall i :: |acc| <= i < |s| ==> s[i] in order && Rare(m, s[i]))
            && (cMax >= 1 ==> |s| <= cMax)
            && (cMax < 1 ==> forall w :: w in order && Rare(m, w) ==> w in s)
    decreases |order|
  {
    if order != [] {
      var w := order[0];
      if Rare(m, w) && |acc| + 1 == cMax {
      } else {
        var acc' := if Rare(m, w) then acc + [w] else acc;
        SelectSpec(m, order[1..], cMax, acc');
        var s := Select(m, order, cMax, acc);
        if Rare(m, w) {
          assert s[|acc|] == acc'[|acc|] == w;
        }
        assert forall i :: |acc| <= i < |s| ==> s[i] == w || s[i] in order[1..];
        assert forall v :: v in order ==> v == w || v in order[1..];
      }
    }
  }

  /** Unlearning the selected words one after another (pyborg.py:742). */
  ghost function UnlearnAll(st: Store, ws: seq<string>): Store
    decreases |ws|
  {
    if ws == [] then st else UnlearnAll(Unlearn(st, ws[0]), ws[1..])
  }

  /** No `unlearn_word` of the sequence raises `KeyError` at pyborg.py:364. */
  ghost predicate CanUnlearnAll(st: Store, ws: seq<string>)
    decreases |ws|
  {
    ws == [] || (CanUnlearn(st, ws[0]) && CanUnlearnAll(Unlearn(st, ws[0]), ws[1..]))
  }

  /** `purge(cMax)`: with `cMax < 1` only the number of rare words is
      reported; otherwise the selected words are unlearned. */
  ghost function Purge(st: Store, order: seq<string>, cMax: int): (Store, nat)
    requires IsOrderOf(order, st.words.Keys)
    requires cMax >= 1 ==> CanUnlearnAll(st, Select(st.words, order, cMax, []))
  {
    var sel := Select(st.words, order, cMax, []);
    if cMax < 1 then (st, |sel|) else (UnlearnAll(st, sel), |sel|)
  }

  /** Unlearning words one after another keeps a consistent store
      consistent, and removes each of them. */
  lemma {:induction false} UnlearnAllRemoves(st: Store, ws: seq<string>)
    requires Consistent(st)
    ensures CanUnlearnAll(st, ws)
    ensures Consistent(UnlearnAll(st, ws))
    ensures UnlearnAll(st, ws).words.Keys <= st.words.Keys
    ensures forall w :: w in ws ==> w !in UnlearnAll(st, ws).words
    decreases |ws|
  {
    if ws != [] {
      var next := Unlearn(st, ws[0]);
      UnlearnConsistent(st, ws[0]);
      ConsistentCanUnlearn(st, ws[0]);
      UnlearnDeletes(st, ws[0]);
      if ws[0] in st.words {
        UnlearnRemovesWord(st, ws[0]);
      }
      UnlearnAllRemoves(next, ws[1..]);
    }
  }

  /** On a consistent store, `purge(cMax)` with `cMax >= 1` removes at most
      `cMax` words, every one of them rare, and keeps the store consistent;
      with `cMax < 1` it reports the number of rare words and changes nothing. */
  lemma PurgeEffect(st: Store, order: seq<string>, cMax: int)
    requires Consistent(st) && IsOrderOf(order, st.words.Keys)
    ensures cMax >= 1 ==> CanUnlearnAll(st, Select(st.words, order, cMax, []))
    ensures var (r, count) := Purge(st, order, cMax);
            var sel := Select(st.words, order, cMax, []);
            && count == |sel|
            && (forall w :: w in sel ==> w in st.words && Rare(st.words, w))
            && (cMax < 1 ==> r == st && (forall w :: w in st.words && Rare(st.words, w) ==> w in sel))
            && (cMax >= 1 ==> count <= cMax && Consistent(r) && r.words.Keys <= st.words.Keys && (forall w :: w in sel ==> w !in r.words))
  {
    var sel := Select(st.words, order, cMax, []);
    SelectSpec(st.words, order, cMax, []);
    UnlearnAllRemoves(st, sel);
  }
}
