/** Unlearning: `PyborgBrain.unlearn_word` (pyborg.py:335-374) as a function
    from the old store to the new one, with what it keeps. */
module Unlearning {
  import opened Text
  import opened Knowledge

  /** `dellist`: the lines whose space-padded text contains the space-padded
      phrase (pyborg.py:343-352). Every line is searched. */
  function Matching(lines: map<int, Line>, p: string): set<int> {
    set h | h in lines && Contains(Padded(lines[h].tokens), " " + p + " ")
  }

  /** `wordlist`: the words of the deleted lines (pyborg.py:354-357). */
  function Touched(lines: map<int, Line>, dell: set<int>): set<string> {
    set h, i | h in dell && h in lines && 0 <= i < |lines[h].tokens| :: lines[h].tokens[i]
  }

  /** A reference list without the references into deleted lines, in order
      (the backward deleting loop at pyborg.py:366-370). */
  function KeepRefs(s: seq<Ref>, dell: set<int>): (r: seq<Ref>)
    ensures |r| <= |s|
    ensures forall q :: q in r <==> q in s && q.line !in dell
  {
    if s == [] then [] else (if s[0].line in dell then [] else [s[0]]) + KeepRefs(s[1..], dell)
  }

  /** The index after the repair loop: touched words lose their references
      into deleted lines and vanish when nothing is left (pyborg.py:362-373). */
  function UnlearnWords(m: Index, touched: set<string>, dell: set<int>): Index {
    map w | w in m && (w !in touched || KeepRefs(m[w], dell) != []) :: if w in touched then KeepRefs(m[w], dell) else m[w]
  }

  /** The lookup `words[x]` at pyborg.py:364 succeeds for every touched word. */
  predicate CanUnlearn(st: Store, p: string) {
    forall h, i :: h in st.lines && 0 <= i < |st.lines[h].tokens| && h in Matching(st.lines, p) ==> st.lines[h].tokens[i] in st.words
  }

  /** `unlearn_word(p)`: the matching lines are deleted, the index repaired,
      one context counted off per removed reference and one word per
      deleted word. */
  ghost function Unlearn(st: Store, p: string): Store {
    var dell := Matching(st.lines, p);
    var m := UnlearnWords(st.words, Touched(st.lines, dell), dell);
    st.(lines := st.lines - dell,
        words := m,
        numWords := st.numWords - |st.words.Keys - m.Keys|,
        numContexts := st.numContexts - (TotalRefs(st.words) - TotalRefs(m)))
  }

  // ---------------------------------------------------------------------
  // Properties

  /** Touched words are exactly the tokens of the deleted lines. */
  lemma TouchedMembers(lines: map<int, Line>, dell: set<int>, h: int, i: int)
    requires h in dell && h in lines && 0 <= i < |lines[h].tokens|
    ensures lines[h].tokens[i] in Touched(lines, dell)
  {
  }

  /** After `unlearn_word(p)` no line left contains the padded phrase, and no
      word keeps a reference into a deleted line, provided every reference
      was valid before. */
  lemma UnlearnPurges(st: Store, p: string)
    requires RefsValid(st)
    ensures var r := Unlearn(st, p);
            && (forall h :: h in r.lines ==> h in st.lines && r.lines[h] == st.lines[h] && !Contains(Padded(r.lines[h].tokens), " " + p + " "))
            && (forall w, q :: w in r.words && q in r.words[w] ==> q.line !in Matching(st.lines, p))
  {
    var dell := Matching(st.lines, p);
    var t := Touched(st.lines, dell);
    var r := Unlearn(st, p);
    forall w, q | w in r.words && q in r.words[w] ensures q.line !in dell {
      if w !in t && q.line in dell {
        assert RefValid(st.lines, w, q);
        TouchedMembers(st.lines, dell, q.line, q.pos);
      }
    }
  }

  /** A word disappears exactly when it was touched and lost all its references. */
  lemma UnlearnDeletes(st: Store, p: string)
    ensures var dell := Matching(st.lines, p);
            var r := Unlearn(st, p);
            && r.words.Keys <= st.words.Keys
            && (forall w :: w in st.words ==> (w !in r.words <==> w in Touched(st.lines, dell) && KeepRefs(st.words[w], dell) == []))
            && r.numWords == st.numWords - |st.words.Keys - r.words.Keys|
  {
  }

  /** The set of deleted words has as many elements as the words lost. */
  lemma RemovedCount<T>(a: set<T>, b: set<T>)
    requires b <= a
    ensures |a| - |a - b| == |b|
  {
    assert a == b + (a - b);
  }

  /** Unlearning keeps exact counters exact. */
  lemma UnlearnCounters(st: Store, p: string)
    requires CountersExact(st)
    ensures CountersExact(Unlearn(st, p))
  {
    var r := Unlearn(st, p);
    RemovedCount(st.words.Keys, r.words.Keys);
  }

  /** References left after unlearning are valid. */
  lemma UnlearnRefsValid(st: Store, p: string)
    requires RefsValid(st)
    ensures RefsValid(Unlearn(st, p))
  {
    var r := Unlearn(st, p);
    UnlearnPurges(st, p);
    forall w, q | w in r.words && q in r.words[w] ensures RefValid(r.lines, w, q) {
      assert q in st.words[w];
      assert RefValid(st.lines, w, q);
    }
  }

  /** Every position of a line left after unlearning is still referenced. */
  lemma UnlearnIndexed(st: Store, p: string)
    requires Indexed(st)
    ensures Indexed(Unlearn(st, p))
  {
    var dell := Matching(st.lines, p);
    var t := Touched(st.lines, dell);
    var r := Unlearn(st, p);
    forall h, i | h in r.lines && 0 <= i < |r.lines[h].tokens|
      ensures r.lines[h].tokens[i] in r.words && Ref(h, i) in r.words[r.lines[h].tokens[i]]
    {
      var w := st.lines[h].tokens[i];
      assert Ref(h, i) in st.words[w];
      if w in t {
        assert Ref(h, i) in KeepRefs(st.words[w], dell);
      }
    }
  }

  /** Unlearning leaves no empty word and no repeated reference. */
  lemma UnlearnNoEmptyNoDuplicate(st: Store, p: string)
    requires NoEmptyWords(st) && NoDuplicateRefs(st)
    ensures NoEmptyWords(Unlearn(st, p)) && NoDuplicateRefs(Unlearn(st, p))
  {
    var dell := Matching(st.lines, p);
    var t := Touched(st.lines, dell);
    var r := Unlearn(st, p);
    forall w | w in r.words ensures Distinct(r.words[w]) {
      if w in t {
        KeepRefsDistinct(st.words[w], dell);
      }
    }
  }

  /** Filtering a list without repetitions gives a list without repetitions. */
  lemma {:induction false} KeepRefsDistinct(s: seq<Ref>, dell: set<int>)
    requires Distinct(s)
    ensures Distinct(KeepRefs(s, dell))
  {
    if s != [] {
      KeepRefsDistinct(s[1..], dell);
      var r := KeepRefs(s, dell);
      var rest := KeepRefs(s[1..], dell);
      if s[0].line !in dell {
        assert r == [s[0]] + rest;
        assert s[0] !in s[1..] by {
          forall j | 0 <= j < |s| - 1 ensures s[1..][j] != s[0] {
            assert s[1..][j] == s[j + 1];
          }
        }
        assert s[0] !in rest;
        forall a, b | 0 <= a < b < |r| ensures r[a] != r[b] {
          assert r[b] == rest[b - 1] && rest[b - 1] in rest;
          if a > 0 {
            assert r[a] == rest[a - 1];
          }
        }
      } else {
        assert r == rest;
      }
    }
  }

  /** Unlearning keeps a consistent store consistent. */
  lemma UnlearnConsistent(st: Store, p: string)
    requires Consistent(st)
    ensures Consistent(Unlearn(st, p))
  {
    UnlearnCounters(st, p);
    UnlearnRefsValid(st, p);
    UnlearnIndexed(st, p);
    UnlearnNoEmptyNoDuplicate(st, p);
  }

  /** In a consistent store every token of every line is a word, so the
      lookup at pyborg.py:364 cannot fail. */
  lemma ConsistentCanUnlearn(st: Store, p: string)
    requires Indexed(st)
    ensures CanUnlearn(st, p)
  {
  }

  /** In a consistent store, unlearning a known word removes it: every line
      it occurs in contains it padded with spaces, so all its lines go. */
  lemma UnlearnRemovesWord(st: Store, w: string)
    requires Consistent(st)
    requires w in st.words
    ensures w !in Unlearn(st, w).words
  {
    var dell := Matching(st.lines, w);
    var q := st.words[w][0];
    assert RefValid(st.lines, w, q);
    PaddedTokenFound(st.lines[q.line].tokens, q.pos);
    TouchedMembers(st.lines, dell, q.line, q.pos);
    forall q' | q' in st.words[w] ensures q'.line in dell {
      assert RefValid(st.lines, w, q');
      PaddedTokenFound(st.lines[q'.line].tokens, q'.pos);
    }
    assert KeepRefs(st.words[w], dell) == [] by {
      if KeepRefs(st.words[w], dell) != [] {
        assert KeepRefs(st.words[w], dell)[0] in KeepRefs(st.words[w], dell);
      }
    }
  }
}
