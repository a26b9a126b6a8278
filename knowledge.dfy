/** The knowledge store of PyborgBrain: the word index `words`, the line
    table `lines` and the two counters kept in the settings.

    `words` maps a word to its context references; a reference is the pair
    that pyborg.py packs with `struct.pack("lH", hashval, i)` (pyborg.py:319):
    the key of a line and the position of the word in that line. `lines`
    maps the hash of a sentence to its tokens and its weight; the source keeps
    the text joined with single spaces, and `Text.SplitJoin` shows that the
    token sequence is the same information. */
module Knowledge {
  import opened Text

  /** A context reference: line key and zero-based word position. */
  datatype Ref = Ref(line: int, pos: nat)

  /** A learned line: its tokens and its weight (occurrence count). */
  datatype Line = Line(tokens: seq<string>, weight: int)

  type Index = map<string, seq<Ref>>

  /** The whole learned state: `self.words`, `self.lines`,
      `settings.num_words`, `settings.num_contexts` and `settings.learning`. */
  datatype Store = Store(words: Index, lines: map<int, Line>, numWords: int, numContexts: int, learning: bool)

  /** A denominator: never zero. */
  type Positive = n: nat | n > 0 witness 1

  /** The settings the brain reads (pyborg.py:920-925): word limits, the
      minimum vowel ratio as the fraction vowelRatioNum / vowelRatioDen, the
      censor test (a full-word match against any censored pattern) and the
      ignore list of the reply generator. */
  datatype Settings = Settings(
    maxWords: int,
    maxWordLength: int,
    vowelRatioNum: nat,
    vowelRatioDen: Positive,
    censored: string -> bool,
    ignoreList: seq<string>)

  /** The empty store that `rebuilddict` starts from (pyborg.py:690-693). */
  function Empty(learning: bool): Store {
    Store(map[], map[], 0, 0, learning)
  }

  /** The list of `w`, or the empty list for an unknown word. */
  function ListOf(m: Index, w: string): seq<Ref> {
    if w in m then m[w] else []
  }

  /** The slots of all reference lists: a word and an index into its list. */
  ghost function Slots(m: Index): set<(string, int)> {
    set w, i | w in m && 0 <= i < |m[w]| :: (w, i)
  }

  /** Number of references over all words: what `num_contexts` counts. */
  ghost function TotalRefs(m: Index): nat {
    |Slots(m)|
  }

  /** Reference `r` of word `w` points at an existing line whose token at
      the stored position is `w`. */
  predicate RefValid(lines: map<int, Line>, w: string, r: Ref) {
    r.line in lines && r.pos < |lines[r.line].tokens| && lines[r.line].tokens[r.pos] == w
  }

  /** Every reference of every word is valid. */
  ghost predicate RefsValid(st: Store) {
    forall w, r :: w in st.words && r in st.words[w] ==> RefValid(st.lines, w, r)
  }

  /** Every position of every line is referenced from the list of the word
      found there. */
  ghost predicate Indexed(st: Store) {
    forall h, i :: h in st.lines && 0 <= i < |st.lines[h].tokens| ==>
      st.lines[h].tokens[i] in st.words && Ref(h, i) in st.words[st.lines[h].tokens[i]]
  }

  /** No word is kept with an empty reference list. */
  ghost predicate NoEmptyWords(st: Store) {
    forall w :: w in st.words ==> st.words[w] != []
  }

  /** No element occurs twice. */
  predicate Distinct<T(==)>(s: seq<T>) {
    forall a, b :: 0 <= a < b < |s| ==> s[a] != s[b]
  }

  /** No reference list holds the same reference twice. */
  ghost predicate NoDuplicateRefs(st: Store) {
    forall w :: w in st.words ==> Distinct(st.words[w])
  }

  /** The counters equal the true cardinalities. */
  ghost predicate CountersExact(st: Store) {
    st.numWords == |st.words| && st.numContexts == TotalRefs(st.words)
  }

  /** The store invariant: references valid, index complete, no empty word,
      no duplicate reference, exact counters. */
  ghost predicate Consistent(st: Store) {
    RefsValid(st) && Indexed(st) && NoEmptyWords(st) && NoDuplicateRefs(st) && CountersExact(st)
  }

  // ---------------------------------------------------------------------
  // Counting references

  /** The first `n` slots of the list of `w`. */
  ghost function SlotsOf(w: string, n: nat): set<(string, int)> {
    set i | 0 <= i < n :: (w, i)
  }

  lemma {:induction false} SlotsOfCount(w: string, n: nat)
    ensures |SlotsOf(w, n)| == n
  {
    if n > 0 {
      SlotsOfCount(w, n - 1);
      assert SlotsOf(w, n) == SlotsOf(w, n - 1) + {(w, n - 1)};
    }
  }

  /** Replacing or adding the list of one word changes the total by the
      difference of the list lengths. */
  lemma TotalRefsUpdate(m: Index, k: string, v: seq<Ref>)
    ensures TotalRefs(m[k := v]) == TotalRefs(m) - |ListOf(m, k)| + |v|
  {
    var n := m[k := v];
    var others := Slots(m - {k});
    SlotsSplit(m, k);
    SlotsSplit(n, k);
    assert n - {k} == m - {k};
    assert ListOf(n, k) == v;
    DisjointCard(others, SlotsOf(k, |ListOf(m, k)|));
    DisjointCard(others, SlotsOf(k, |v|));
    SlotsOfCount(k, |ListOf(m, k)|);
    SlotsOfCount(k, |v|);
  }

  /** Two disjoint sets together have as many elements as both. */
  lemma DisjointCard<T>(a: set<T>, b: set<T>)
    requires a !! b
    ensures |a + b| == |a| + |b|
  {
    assert a * b == {};
  }

  /** The slots of a map are those of the other words and those of `k`,
      which are disjoint. */
  lemma SlotsSplit(m: Index, k: string)
    ensures Slots(m) == Slots(m - {k}) + SlotsOf(k, |ListOf(m, k)|)
    ensures Slots(m - {k}) !! SlotsOf(k, |ListOf(m, k)|)
  {
  }

  /** Appending one reference to one list adds one to the total. */
  lemma TotalRefsAppend(m: Index, k: string, r: Ref)
    ensures TotalRefs(m[k := ListOf(m, k) + [r]]) == TotalRefs(m) + 1
  {
    TotalRefsUpdate(m, k, ListOf(m, k) + [r]);
  }

  /** Removing one word removes its references from the total. */
  lemma TotalRefsDelete(m: Index, k: string)
    requires k in m
    ensures TotalRefs(m - {k}) == TotalRefs(m) - |m[k]|
  {
    var mine := SlotsOf(k, |m[k]|);
    assert Slots(m) == Slots(m - {k}) + mine;
    SlotsOfCount(k, |m[k]|);
  }

  /** A map of empty lists holds no reference. */
  lemma TotalRefsAllEmpty(m: Index)
    requires forall w :: w in m ==> m[w] == []
    ensures TotalRefs(m) == 0
  {
    assert Slots(m) == {};
  }

  /** The empty store satisfies the invariant. */
  lemma EmptyConsistent(learning: bool)
    ensures Consistent(Empty(learning))
  {
    assert TotalRefs(map[]) == 0;
  }
}
