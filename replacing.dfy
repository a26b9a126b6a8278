/** Replacing a word: `PyborgBrain.replace_word` (pyborg.py:575-607) as a
    function from the old store to the new one and the reply. */
module Replacing {
  import opened Text
  import opened Knowledge

  /** The reply of `replace_word`: "<from> not known." or the number of
      tokens replaced. */
  datatype Outcome = NotKnown | Replaced(count: nat)

  /** Every pointer names an existing line and a position inside it; the
      source fails on the lookups at pyborg.py:587 and 590 otherwise. */
  predicate RefsInRange(lines: map<int, Line>, refs: seq<Ref>) {
    forall q :: q in refs ==> q.line in lines && q.pos < |lines[q.line].tokens|
  }

  /** `2^k`. */
  function Pow2(k: nat): (r: nat)
    ensures r >= 1
  {
    if k == 0 then 1 else 2 * Pow2(k - 1)
  }

  /** A weight doubled `k` times over, as `number + number` does once per
      rewritten position (pyborg.py:594). */
  function Doubled(w: int, k: nat): int {
    if k == 0 then w else 2 * Doubled(w, k - 1)
  }

  /** Doubling `k` times multiplies by `2^k`. */
  lemma {:induction false} DoubledIsPow2(w: int, k: nat)
    ensures Doubled(w, k) == w * Pow2(k)
  {
    if k > 0 {
      DoubledIsPow2(w, k - 1);
      assert w * Pow2(k) == w * (2 * Pow2(k - 1));
    }
  }

  /** The lines and the count after the first `n` pointers of the loop at
      pyborg.py:585-598: a pointer whose token is `from` has it set to `to`
      and adds the line's current weight to itself; any other pointer is
      skipped as broken. */
  function Rewrite(lines: map<int, Line>, refs: seq<Ref>, from: string, to: string, n: nat): (r: (map<int, Line>, nat))
    requires n <= |refs| && RefsInRange(lines, refs)
    ensures r.0.Keys == lines.Keys
    ensures forall h :: h in lines ==> |r.0[h].tokens| == |lines[h].tokens|
    ensures r.1 <= n
  {
    if n == 0 then (lines, 0)
    else
      var (ls, c) := Rewrite(lines, refs, from, to, n - 1);
      var q := refs[n - 1];
      var l := ls[q.line];
      if l.tokens[q.pos] != from then (ls, c)
      else (ls[q.line := Line(l.tokens[q.pos := to], l.weight + l.weight)], c + 1)
  }

  /** The index update at pyborg.py:600-605 as written: `to` gets `from`'s
      list appended (or takes it over) and then `from` is deleted, even when
      `from` and `to` are the same word. */
  function MergeAsWritten(m: Index, from: string, to: string): Index
    requires from in m
  {
    m[to := ListOf(m, to) + m[from]] - {from}
  }

  /** `replace_word(from, to)` as written. */
  function ReplaceAsWritten(st: Store, from: string, to: string): (Store, Outcome)
    requires from in st.words ==> RefsInRange(st.lines, st.words[from])
  {
    if from !in st.words then (st, NotKnown)
    else
      var refs := st.words[from];
      var (ls, c) := Rewrite(st.lines, refs, from, to, |refs|);
      (st.(lines := ls,
           words := MergeAsWritten(st.words, from, to),
           numWords := st.numWords - (if to in st.words then 1 else 0)),
       Replaced(c))
  }

  /** The index update as evidently intended: replacing a word by itself
      leaves the index alone. */
  function Merge(m: Index, from: string, to: string): Index
    requires from in m
  {
    if from == to then m else MergeAsWritten(m, from, to)
  }

  /** `replace_word(from, to)` with the index update corrected for `from == to`. */
  function Replace(st: Store, from: string, to: string): (Store, Outcome)
    requires from in st.words ==> RefsInRange(st.lines, st.words[from])
  {
    if from !in st.words then (st, NotKnown)
    else
      var refs := st.words[from];
      var (ls, c) := Rewrite(st.lines, refs, from, to, |refs|);
      (st.(lines := ls,
           words := Merge(st.words, from, to),
           numWords := st.numWords - (if to in st.words && to != from then 1 else 0)),
       Replaced(c))
  }

  // ---------------------------------------------------------------------
  // The line rewrite

  /** Number of pointers among the first `n` that point into line `h`. */
  function RefsOn(refs: seq<Ref>, h: int, n: nat): nat
    requires n <= |refs|
  {
    if n == 0 then 0 else RefsOn(refs, h, n - 1) + (if refs[n - 1].line == h then 1 else 0)
  }

  /** One of the first `n` pointers is `Ref(h, i)`. */
  predicate Pointed(refs: seq<Ref>, h: int, i: nat, n: nat)
    requires n <= |refs|
  {
    n > 0 && (refs[n - 1] == Ref(h, i) || Pointed(refs, h, i, n - 1))
  }

  lemma {:induction false} PointedMeans(refs: seq<Ref>, h: int, i: nat, n: nat)
    requires n <= |refs|
    ensures Pointed(refs, h, i, n) <==> Ref(h, i) in refs[..n]
  {
    if n > 0 {
      PointedMeans(refs, h, i, n - 1);
      assert refs[..n] == refs[..n - 1] + [refs[n - 1]];
    }
  }

  /** `ls` is `lines` with the positions of the first `n` pointers set to
      `to` and each line's weight doubled once per such pointer. */
  ghost predicate Rewritten(lines: map<int, Line>, ls: map<int, Line>, refs: seq<Ref>, to: string, n: nat)
    requires n <= |refs|
  {
    && ls.Keys == lines.Keys
    && (forall h :: h in lines ==> |ls[h].tokens| == |lines[h].tokens|)
    && (forall h, i :: h in lines && 0 <= i < |lines[h].tokens| ==>
          ls[h].tokens[i] == (if Pointed(refs, h, i, n) then to else lines[h].tokens[i]))
    && (forall h :: h in lines ==> ls[h].weight == Doubled(lines[h].weight, RefsOn(refs, h, n)))
  }

  /** One more pointer, at an occurrence of `from` not visited before: its
      token is still `from`, and rewriting it extends the description. */
  lemma RewriteStep(lines: map<int, Line>, ls: map<int, Line>, refs: seq<Ref>, from: string, to: string, n: nat)
    requires 0 < n <= |refs|
    requires Rewritten(lines, ls, refs, to, n - 1)
    requires !Pointed(refs, refs[n - 1].line, refs[n - 1].pos, n - 1) && RefValid(lines, from, refs[n - 1])
    ensures var q := refs[n - 1];
            && ls[q.line].tokens[q.pos] == from
            && Rewritten(lines, ls[q.line := Line(ls[q.line].tokens[q.pos := to], ls[q.line].weight + ls[q.line].weight)], refs, to, n)
  {
    var q := refs[n - 1];
    var ls' := ls[q.line := Line(ls[q.line].tokens[q.pos := to], ls[q.line].weight + ls[q.line].weight)];
    forall h, i | h in lines && 0 <= i < |lines[h].tokens|
      ensures ls'[h].tokens[i] == (if Pointed(refs, h, i, n) then to else lines[h].tokens[i])
    {
      if h == q.line && i == q.pos {
      } else {
        assert Ref(h, i) != q;
      }
    }
  }

  /** A pointer that still finds `from` rewrites its position, doubles its
      line's weight and counts once. */
  lemma RewriteUnfold(lines: map<int, Line>, refs: seq<Ref>, from: string, to: string, n: nat)
    requires 0 < n <= |refs| && RefsInRange(lines, refs)
    requires var ls := Rewrite(lines, refs, from, to, n - 1).0;
             ls[refs[n - 1].line].tokens[refs[n - 1].pos] == from
    ensures var (ls, c) := Rewrite(lines, refs, from, to, n - 1);
            var q := refs[n - 1];
            Rewrite(lines, refs, from, to, n) == (ls[q.line := Line(ls[q.line].tokens[q.pos := to], ls[q.line].weight + ls[q.line].weight)], c + 1)
  {
  }

  /** The `n`-th of distinct valid pointers is new and valid. */
  lemma LastPointer(lines: map<int, Line>, refs: seq<Ref>, from: string, n: nat)
    requires 0 < n <= |refs| && Distinct(refs) && forall q :: q in refs ==> RefValid(lines, from, q)
    ensures !Pointed(refs, refs[n - 1].line, refs[n - 1].pos, n - 1) && RefValid(lines, from, refs[n - 1])
  {
    var q := refs[n - 1];
    forall j | 0 <= j < n - 1 ensures refs[j] != q {
    }
    assert forall j :: 0 <= j < n - 1 ==> refs[..n - 1][j] == refs[j];
    PointedMeans(refs, q.line, q.pos, n - 1);
  }

  /** The rewrite of the first `n` pointers, from that of the first `n - 1`. */
  lemma RewriteNext(lines: map<int, Line>, refs: seq<Ref>, from: string, to: string, n: nat)
    requires 0 < n <= |refs| && RefsInRange(lines, refs)
    requires Rewritten(lines, Rewrite(lines, refs, from, to, n - 1).0, refs, to, n - 1)
    requires Distinct(refs) && forall q :: q in refs ==> RefValid(lines, from, q)
    requires Rewrite(lines, refs, from, to, n - 1).1 == n - 1
    ensures Rewrite(lines, refs, from, to, n).1 == n
    ensures Rewritten(lines, Rewrite(lines, refs, from, to, n).0, refs, to, n)
  {
    LastPointer(lines, refs, from, n);
    RewriteStep(lines, Rewrite(lines, refs, from, to, n - 1).0, refs, from, to, n);
    RewriteUnfold(lines, refs, from, to, n);
  }

  /** When every pointer is distinct and points at an occurrence of `from`,
      the first `n` pointers turn exactly their positions into `to`, count
      themselves, and double the weight of their line once per pointer. */
  lemma {:induction false} RewriteEffect(lines: map<int, Line>, refs: seq<Ref>, from: string, to: string, n: nat, ls: map<int, Line>, c: nat)
    requires n <= |refs| && Distinct(refs) && RefsInRange(lines, refs)
    requires forall q :: q in refs ==> RefValid(lines, from, q)
    requires (ls, c) == Rewrite(lines, refs, from, to, n)
    ensures c == n && Rewritten(lines, ls, refs, to, n)
  {
    if n > 0 {
      var (ls', c') := Rewrite(lines, refs, from, to, n - 1);
      RewriteEffect(lines, refs, from, to, n - 1, ls', c');
      RewriteNext(lines, refs, from, to, n);
    } else {
      assert refs[..0] == [];
    }
  }

  /** Once every pointer is visited, being pointed at is membership. */
  lemma PointedAll(refs: seq<Ref>)
    ensures forall h: int, i: nat :: Pointed(refs, h, i, |refs|) <==> Ref(h, i) in refs
  {
    forall h: int, i: nat ensures Pointed(refs, h, i, |refs|) <==> Ref(h, i) in refs {
      PointedMeans(refs, h, i, |refs|);
      assert refs[..|refs|] == refs;
    }
  }

  /** In a store whose references are valid and whose index is complete, a
      pointer of `from` sits exactly where a line holds `from`. */
  lemma PointersAreOccurrences(st: Store, from: string)
    requires RefsValid(st) && Indexed(st) && from in st.words
    ensures forall h, i :: h in st.lines && 0 <= i < |st.lines[h].tokens| ==>
              (Ref(h, i) in st.words[from] <==> st.lines[h].tokens[i] == from)
  {
    forall h, i | h in st.lines && 0 <= i < |st.lines[h].tokens| && Ref(h, i) in st.words[from]
      ensures st.lines[h].tokens[i] == from
    {
      assert RefValid(st.lines, from, Ref(h, i));
    }
  }

  // ---------------------------------------------------------------------
  // What one call does

  /** An unknown word is reported and nothing changes (pyborg.py:580-583). */
  lemma ReplaceUnknown(st: Store, from: string, to: string)
    requires from !in st.words
    ensures Replace(st, from, to) == (st, NotKnown)
    ensures ReplaceAsWritten(st, from, to) == (st, NotKnown)
  {
  }

  /** On a consistent store, `replace_word(from, to)` turns every occurrence
      of `from` in every line into `to`, reports how many there were,
      doubles a line's weight once per occurrence, and moves `from`'s list
      behind `to`'s; `from` is no longer a word, `num_words` drops by one
      exactly when `to` was already a word, and `num_contexts` stays. */
  lemma ReplaceEffect(st: Store, from: string, to: string)
    requires Consistent(st) && from in st.words && from != to
    ensures RefsInRange(st.lines, st.words[from])
    ensures var (r, out) := Replace(st, from, to);
            && out == Replaced(|st.words[from]|)
            && r.lines.Keys == st.lines.Keys
            && (forall h :: h in st.lines ==> |r.lines[h].tokens| == |st.lines[h].tokens|)
            && (forall h, i :: h in st.lines && 0 <= i < |st.lines[h].tokens| ==>
                  r.lines[h].tokens[i] == (if st.lines[h].tokens[i] == from then to else st.lines[h].tokens[i]))
            && (forall h :: h in st.lines ==> r.lines[h].weight == Doubled(st.lines[h].weight, RefsOn(st.words[from], h, |st.words[from]|)))
            && from !in r.words
            && to in r.words && r.words[to] == ListOf(st.words, to) + st.words[from]
            && (forall w :: w in st.words && w != from && w != to ==> w in r.words && r.words[w] == st.words[w])
            && r.words.Keys == st.words.Keys - {from} + {to}
            && r.numWords == st.numWords - (if to in st.words then 1 else 0)
            && r.numContexts == st.numContexts
  {
    var refs := st.words[from];
    forall q | q in refs ensures RefValid(st.lines, from, q) {
    }
    assert RefsInRange(st.lines, refs);
    RewriteEffect(st.lines, refs, from, to, |refs|, Rewrite(st.lines, refs, from, to, |refs|).0, Rewrite(st.lines, refs, from, to, |refs|).1);
    PointedAll(refs);
    PointersAreOccurrences(st, from);
  }

  /** Replacing a word by itself as evidently intended leaves the index and
      the counters alone. */
  lemma ReplaceSelf(st: Store, w: string)
    requires w in st.words && RefsInRange(st.lines, st.words[w])
    ensures var r := Replace(st, w, w).0;
            r.words == st.words && r.numWords == st.numWords && r.numContexts == st.numContexts
  {
  }

  /** Replacing a word keeps a consistent store consistent. */
  lemma ReplaceConsistent(st: Store, from: string, to: string)
    requires Consistent(st) && from in st.words
    ensures RefsInRange(st.lines, st.words[from])
    ensures Consistent(Replace(st, from, to).0)
  {
    var refs := st.words[from];
    forall q | q in refs ensures RefValid(st.lines, from, q) {
    }
    assert RefsInRange(st.lines, refs);
    if from == to {
      RewriteEffect(st.lines, refs, from, to, |refs|, Rewrite(st.lines, refs, from, to, |refs|).0, Rewrite(st.lines, refs, from, to, |refs|).1);
      PointedAll(refs);
      PointersAreOccurrences(st, from);
      var r := Replace(st, from, to).0;
      assert forall h :: h in st.lines ==> r.lines[h].tokens == st.lines[h].tokens;
      KeptTokensConsistent(st, r);
    } else {
      ReplaceEffect(st, from, to);
      var r := Replace(st, from, to).0;
      MovedRefsValid(st, r, from, to);
      MovedIndexed(st, r, from, to);
      MovedNoDuplicates(st, r, from, to);
      MovedCounters(st, r, from, to);
    }
  }

  /** Changing only weights keeps a store consistent. */
  lemma KeptTokensConsistent(st: Store, r: Store)
    requires Consistent(st)
    requires r.words == st.words && r.numWords == st.numWords && r.numContexts == st.numContexts
    requires r.lines.Keys == st.lines.Keys
    requires forall h :: h in st.lines ==> r.lines[h].tokens == st.lines[h].tokens
    ensures Consistent(r)
  {
    assert RefsValid(r) by {
      forall w, q | w in r.words && q in r.words[w] ensures RefValid(r.lines, w, q) {
        assert RefValid(st.lines, w, q);
      }
    }
  }

  /** `r` is `st` with every occurrence of `from` in the lines renamed to
      `to` and `from`'s list moved behind `to`'s. */
  ghost predicate Moved(st: Store, r: Store, from: string, to: string) {
    && from in st.words && from != to
    && r.lines.Keys == st.lines.Keys
    && (forall h :: h in st.lines ==> |r.lines[h].tokens| == |st.lines[h].tokens|)
    && (forall h, i :: h in st.lines && 0 <= i < |st.lines[h].tokens| ==>
          r.lines[h].tokens[i] == (if st.lines[h].tokens[i] == from then to else st.lines[h].tokens[i]))
    && from !in r.words
    && to in r.words && r.words[to] == ListOf(st.words, to) + st.words[from]
    && (forall w :: w in st.words && w != from && w != to ==> w in r.words && r.words[w] == st.words[w])
    && r.words.Keys == st.words.Keys - {from} + {to}
    && r.numWords == st.numWords - (if to in st.words then 1 else 0)
    && r.numContexts == st.numContexts
  }

  lemma MovedRefsValid(st: Store, r: Store, from: string, to: string)
    requires RefsValid(st) && Moved(st, r, from, to)
    ensures RefsValid(r)
  {
    forall w, q | w in r.words && q in r.words[w] ensures RefValid(r.lines, w, q) {
      if w == to && q in st.words[from] {
        assert RefValid(st.lines, from, q);
      } else {
        assert q in st.words[w];
        assert RefValid(st.lines, w, q);
      }
    }
  }

  lemma MovedIndexed(st: Store, r: Store, from: string, to: string)
    requires Indexed(st) && Moved(st, r, from, to)
    ensures Indexed(r)
  {
    forall h, i | h in r.lines && 0 <= i < |r.lines[h].tokens|
      ensures r.lines[h].tokens[i] in r.words && Ref(h, i) in r.words[r.lines[h].tokens[i]]
    {
      var t := st.lines[h].tokens[i];
      assert Ref(h, i) in st.words[t];
    }
  }

  lemma MovedNoDuplicates(st: Store, r: Store, from: string, to: string)
    requires RefsValid(st) && NoEmptyWords(st) && NoDuplicateRefs(st) && Moved(st, r, from, to)
    ensures NoEmptyWords(r) && NoDuplicateRefs(r)
  {
    var a := ListOf(st.words, to);
    var b := st.words[from];
    forall x, y | 0 <= x < y < |a + b| ensures (a + b)[x] != (a + b)[y] {
      if x < |a| && y >= |a| {
        assert RefValid(st.lines, to, a[x]);
        assert RefValid(st.lines, from, b[y - |a|]);
      } else if y < |a| {
        assert (a + b)[x] == a[x] && (a + b)[y] == a[y];
      } else {
        assert (a + b)[x] == b[x - |a|] && (a + b)[y] == b[y - |a|];
      }
    }
    assert Distinct(r.words[to]);
  }

  lemma MovedCounters(st: Store, r: Store, from: string, to: string)
    requires CountersExact(st) && Moved(st, r, from, to)
    ensures CountersExact(r)
  {
    var m1 := st.words - {from};
    var m2 := m1[to := ListOf(st.words, to) + st.words[from]];
    TotalRefsDelete(st.words, from);
    TotalRefsUpdate(m1, to, ListOf(st.words, to) + st.words[from]);
    assert ListOf(m1, to) == ListOf(st.words, to);
    assert r.words.Keys == m2.Keys;
    assert r.words == m2;
    if to in st.words {
      assert r.words.Keys == st.words.Keys - {from};
    } else {
      assert r.words.Keys == (st.words.Keys - {from}) + {to};
    }
  }

  // ---------------------------------------------------------------------
  // Replacing a word by itself, as written

  /** As written, `replace_word(w, w)` drops `w` from the index although
      every line that held `w` still holds it, and `num_contexts` keeps
      counting the dropped references: a one-line store shows it. */
  lemma ReplaceSelfAsWrittenBreaks()
    ensures var st := Store(map["hi" := [Ref(0, 0)]], map[0 := Line(["hi"], 1)], 1, 1, true);
            && Consistent(st)
            && var r := ReplaceAsWritten(st, "hi", "hi").0;
               && "hi" !in r.words
               && r.lines[0].tokens == ["hi"]
               && !Indexed(r)
               && !CountersExact(r)
  {
    var st := Store(map["hi" := [Ref(0, 0)]], map[0 := Line(["hi"], 1)], 1, 1, true);
    assert TotalRefs(st.words) == 1 by {
      assert Slots(st.words) == {("hi", 0)};
    }
    var r := ReplaceAsWritten(st, "hi", "hi").0;
    assert r.words == map[];
    assert r.lines[0].tokens[0] == "hi";
    assert TotalRefs(r.words) == 0;
  }
}
