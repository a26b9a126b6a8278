/** Reply generation of PyborgBrain (pyborg.py:376-573) as functions: the
    seed choice, the `pre_words` / `post_words` tallies, the cumulative
    weighted pick, the backward and forward walks and the final formatting.

    Randomness is a parameter: `random.randint(a, b)` is fed one supplied
    draw `d` and yields `a + d % (b - a + 1)`; each call takes the next draw
    of a sequence, and a sequence that runs out ends the reply with
    `DrawsExhausted`. Python exceptions that the code can raise become
    `Err` results. */
module Generation {
  import opened Text
  import opened Knowledge

  datatype Failure = KeyError | IndexError | ValueError | DrawsExhausted

  datatype Res<T> = Ok(value: T) | Err(fault: Failure)

  datatype Option<T> = None | Some(value: T)

  /** `random.randint(a, b)` fed with the draw `d`. */
  function RandInt(a: int, b: int, d: int): (r: Res<int>)
    ensures r.Ok? <==> a <= b
    ensures r.Ok? ==> a <= r.value <= b
  {
    if b < a then Err(ValueError) else Ok(a + d % (b - a + 1))
  }

  /** Every value of the range is produced by some draw. */
  lemma RandIntReaches(a: int, b: int, v: int)
    requires a <= v <= b
    ensures RandInt(a, b, v - a) == Ok(v)
  {
    assert (v - a) % (b - a + 1) == v - a;
  }

  /** Python's `s[i]` position for a list of length `n`, negative indices
      counting from the end; `None` is an `IndexError`. */
  function PyIndex(n: nat, i: int): (r: Option<nat>)
    ensures r.Some? <==> -(n as int) <= i < n
    ensures r.Some? ==> r.value < n && (r.value == i || r.value == i + n)
  {
    if 0 <= i < n then Some(i) else if -(n as int) <= i < 0 then Some(i + n) else None
  }

  // ---------------------------------------------------------------------
  // Seed choice (pyborg.py:380-414)

  /** The input words that survive the ignore-list and `isdigit` filter (pyborg.py:392). */
  function Candidates(toks: seq<string>, ignore: seq<string>): (r: seq<string>)
    ensures forall x :: x in r <==> x in toks && x !in ignore && !IsNumeric(x)
  {
    if toks == [] then []
    else
      var last := toks[|toks| - 1];
      assert toks == toks[..|toks| - 1] + [last];
      Candidates(toks[..|toks| - 1], ignore) + (if last !in ignore && !IsNumeric(last) then [last] else [])
  }

  /** A word that may seed a reply: known in more than three contexts
      (pyborg.py:398, 404). */
  predicate Eligible(words: Index, x: string) {
    x in words && |words[x]| > 3
  }

  /** `known` after the seed loop: the smallest context count of an
      eligible word, or -1 when there is none. */
  function MinCount(words: Index, xs: seq<string>): int {
    if xs == [] then -1
    else
      var m := MinCount(words, xs[..|xs| - 1]);
      var x := xs[|xs| - 1];
      if Eligible(words, x) && (m == -1 || |words[x]| < m) then |words[x]| else m
  }

  /** The eligible words of `xs` with `k` contexts, in order and with repetitions. */
  function Ties(words: Index, xs: seq<string>, k: int): seq<string> {
    if xs == [] then []
    else
      var x := xs[|xs| - 1];
      Ties(words, xs[..|xs| - 1], k) + (if Eligible(words, x) && |words[x]| == k then [x] else [])
  }

  /** `MinCount` is the minimum context count over the eligible words. */
  lemma {:induction false} MinCountIsMin(words: Index, xs: seq<string>)
    ensures MinCount(words, xs) == -1 <==> forall x :: x in xs ==> !Eligible(words, x)
    ensures MinCount(words, xs) != -1 ==> exists x :: x in xs && Eligible(words, x) && |words[x]| == MinCount(words, xs)
    ensures forall x :: x in xs && Eligible(words, x) ==> MinCount(words, xs) <= |words[x]|
  {
    if xs != [] {
      MinCountIsMin(words, xs[..|xs| - 1]);
      assert xs == xs[..|xs| - 1] + [xs[|xs| - 1]];
    }
  }

  lemma {:induction false} TiesMembers(words: Index, xs: seq<string>, k: int)
    ensures forall x :: x in Ties(words, xs, k) <==> x in xs && Eligible(words, x) && |words[x]| == k
  {
    if xs != [] {
      TiesMembers(words, xs[..|xs| - 1], k);
      assert xs == xs[..|xs| - 1] + [xs[|xs| - 1]];
    }
  }

  /** The seed list holds exactly the eligible words whose context count is
      the smallest among the eligible words of the input (pyborg.py:395-414). */
  lemma TiesAreRarest(words: Index, xs: seq<string>)
    ensures forall x :: x in Ties(words, xs, MinCount(words, xs)) <==>
      x in xs && Eligible(words, x) && forall y :: y in xs && Eligible(words, y) ==> |words[x]| <= |words[y]|
  {
    MinCountIsMin(words, xs);
    TiesMembers(words, xs, MinCount(words, xs));
  }

  /** A count below every eligible count has no ties. */
  lemma TiesNone(words: Index, xs: seq<string>, k: int)
    requires forall x :: x in xs && Eligible(words, x) ==> |words[x]| != k
    ensures Ties(words, xs, k) == []
  {
    TiesMembers(words, xs, k);
    if Ties(words, xs, k) != [] {
      assert Ties(words, xs, k)[0] in Ties(words, xs, k);
    }
  }

  /** The seed list of an input and the draw that picks from it
      (pyborg.py:411-414); `None` when the reply is "". */
  function Seed(words: Index, ignore: seq<string>, toks: seq<string>, d: int): (r: Option<string>)
    ensures r.Some? ==> r.value in Ties(words, Candidates(toks, ignore), MinCount(words, Candidates(toks, ignore)))
  {
    var cands := Candidates(toks, ignore);
    var index := Ties(words, cands, MinCount(words, cands));
    if index == [] then None else Some(index[RandInt(0, |index| - 1, d).value])
  }

  /** Every tied word can be the seed. */
  lemma SeedReaches(words: Index, ignore: seq<string>, toks: seq<string>, i: nat)
    requires var cands := Candidates(toks, ignore); i < |Ties(words, cands, MinCount(words, cands))|
    ensures var cands := Candidates(toks, ignore);
            Seed(words, ignore, toks, i) == Some(Ties(words, cands, MinCount(words, cands))[i])
  {
    var cands := Candidates(toks, ignore);
    var index := Ties(words, cands, MinCount(words, cands));
    RandIntReaches(0, |index| - 1, i);
    assert RandInt(0, |index| - 1, i).value == i;
    assert Seed(words, ignore, toks, i) == Some(index[RandInt(0, |index| - 1, i).value]);
  }

  // ---------------------------------------------------------------------
  // Tallies: the dictionaries `pre_words` and `post_words`

  /** A dictionary from candidate text to summed weight, in insertion order. */
  type Tally = seq<(string, int)>

  function Keys(t: Tally): set<string> {
    if t == [] then {} else {t[0].0} + Keys(t[1..])
  }

  /** No key occurs twice. */
  predicate DistinctKeys(t: Tally) {
    t == [] || (t[0].0 !in Keys(t[1..]) && DistinctKeys(t[1..]))
  }

  /** The weight stored under `key` (0 when absent). */
  function Count(t: Tally, key: string): int {
    if t == [] then 0 else (if t[0].0 == key then t[0].1 else 0) + Count(t[1..], key)
  }

  /** `d[key] = n` for a new key, `d[key] += n` for a present one. */
  function Bump(t: Tally, key: string, n: int): (r: Tally)
    ensures |r| >= 1 && (t != [] ==> r[0].0 == t[0].0)
  {
    if t == [] then [(key, n)]
    else if t[0].0 == key then [(key, t[0].1 + n)] + t[1..]
    else [t[0]] + Bump(t[1..], key, n)
  }

  /** `Bump` adds `n` to the weight under `key` and leaves the others alone. */
  lemma {:induction false} BumpCount(t: Tally, key: string, n: int)
    ensures forall k :: Count(Bump(t, key, n), k) == Count(t, k) + (if k == key then n else 0)
  {
    if t != [] && t[0].0 != key {
      BumpCount(t[1..], key, n);
      assert Bump(t, key, n)[1..] == Bump(t[1..], key, n);
    } else if t != [] {
      assert Bump(t, key, n)[1..] == t[1..];
    }
  }

  /** `Bump` adds `key` to the keys. */
  lemma {:induction false} BumpKeys(t: Tally, key: string, n: int)
    ensures Keys(Bump(t, key, n)) == Keys(t) + {key}
  {
    if t != [] && t[0].0 != key {
      BumpKeys(t[1..], key, n);
      assert Bump(t, key, n)[1..] == Bump(t[1..], key, n);
    } else if t != [] {
      assert Bump(t, key, n)[1..] == t[1..];
    }
  }

  /** `Bump` keeps the keys distinct. */
  lemma {:induction false} BumpDistinct(t: Tally, key: string, n: int)
    requires DistinctKeys(t)
    ensures DistinctKeys(Bump(t, key, n))
  {
    if t != [] && t[0].0 != key {
      BumpDistinct(t[1..], key, n);
      BumpKeys(t[1..], key, n);
      assert Bump(t, key, n)[1..] == Bump(t[1..], key, n);
    } else if t != [] {
      assert Bump(t, key, n)[1..] == t[1..];
    }
  }

  /** `Bump` behaves as a dictionary update. */
  lemma BumpEffect(t: Tally, key: string, n: int)
    ensures forall k :: Count(Bump(t, key, n), k) == Count(t, k) + (if k == key then n else 0)
    ensures Keys(Bump(t, key, n)) == Keys(t) + {key}
    ensures DistinctKeys(t) ==> DistinctKeys(Bump(t, key, n))
  {
    BumpCount(t, key, n);
    BumpKeys(t, key, n);
    if DistinctKeys(t) {
      BumpDistinct(t, key, n);
    }
  }

  /** The candidate before position `w` of a line: the previous token, or
      the two previous tokens when the previous one is ignored and there is
      room (pyborg.py:440-442). */
  function Before(ignore: seq<string>, cwords: seq<string>, w: nat): string
    requires 0 < w < |cwords|
  {
    var look := cwords[w - 1];
    if look in ignore && w > 1 then cwords[w - 2] + " " + look else look
  }

  /** The candidate after position `w` (pyborg.py:513-516). */
  function After(ignore: seq<string>, cwords: seq<string>, w: nat): string
    requires w < |cwords| - 1
  {
    var look := cwords[w + 1];
    if look in ignore && w < |cwords| - 2 then look + " " + cwords[w + 2] else look
  }

  /** One reference's contribution to `pre_words` (pyborg.py:425-448). */
  function BackEntry(lines: map<int, Line>, ignore: seq<string>, sentence: seq<string>, t: Tally, q: Ref): (r: Res<Tally>)
    ensures r.Ok? && t != [] ==> |r.value| >= 1 && r.value[0].0 == t[0].0
  {
    if q.line !in lines then Err(KeyError)
    else
      var cwords := lines[q.line].tokens;
      var num := lines[q.line].weight;
      if q.pos >= |cwords| then Err(IndexError)
      else if q.pos == 0 then Ok(Bump(t, "", num))
      else if |sentence| > 1 && |cwords| > q.pos + 1 && sentence[1] != cwords[q.pos + 1] then Ok(t)
      else Ok(Bump(t, Before(ignore, cwords, q.pos), num))
  }

  /** `pre_words` after the loop over `refs` (pyborg.py:420-448). */
  function BackTally(lines: map<int, Line>, ignore: seq<string>, sentence: seq<string>, refs: seq<Ref>): (r: Res<Tally>)
    ensures r.Ok? ==> |r.value| >= 1 && r.value[0].0 == ""
  {
    if refs == [] then Ok([("", 0)])
    else
      match BackTally(lines, ignore, sentence, refs[..|refs| - 1])
      case Err(e) => Err(e)
      case Ok(t) => BackEntry(lines, ignore, sentence, t, refs[|refs| - 1])
  }

  /** One reference's contribution to `post_words` (pyborg.py:501-522);
      `cwords[w - 1]` is a Python index and reads the last token when `w` is 0. */
  function ForwardEntry(lines: map<int, Line>, ignore: seq<string>, sentence: seq<string>, t: Tally, q: Ref): (r: Res<Tally>)
    ensures r.Ok? && t != [] ==> |r.value| >= 1 && r.value[0].0 == t[0].0
  {
    if q.line !in lines then Err(KeyError)
    else
      var cwords := lines[q.line].tokens;
      var num := lines[q.line].weight;
      var prev := PyIndex(|cwords|, q.pos - 1);
      if |sentence| > 1 && prev.None? then Err(IndexError)
      else if |sentence| > 1 && sentence[|sentence| - 2] != cwords[prev.value] then Ok(t)
      else if q.pos < |cwords| - 1 then Ok(Bump(t, After(ignore, cwords, q.pos), num))
      else Ok(Bump(t, "", num))
  }

  /** `post_words` after the loop over `refs` (pyborg.py:498-522). */
  function ForwardTally(lines: map<int, Line>, ignore: seq<string>, sentence: seq<string>, refs: seq<Ref>): (r: Res<Tally>)
    ensures r.Ok? ==> |r.value| >= 1 && r.value[0].0 == ""
  {
    if refs == [] then Ok([("", 0)])
    else
      match ForwardTally(lines, ignore, sentence, refs[..|refs| - 1])
      case Err(e) => Err(e)
      case Ok(t) => ForwardEntry(lines, ignore, sentence, t, refs[|refs| - 1])
  }

  /** `k` is what reference `q` offers before its word. */
  predicate Precedes(lines: map<int, Line>, ignore: seq<string>, q: Ref, k: string) {
    q.line in lines && 0 < q.pos < |lines[q.line].tokens| && Before(ignore, lines[q.line].tokens, q.pos) == k
  }

  /** `k` is what reference `q` offers after its word. */
  predicate Follows(lines: map<int, Line>, ignore: seq<string>, q: Ref, k: string) {
    q.line in lines && q.pos < |lines[q.line].tokens| - 1 && After(ignore, lines[q.line].tokens, q.pos) == k
  }

  /** `pre_words` is a dictionary whose every key but "" is found just
      before the word in one of the referenced lines. */
  lemma {:induction false} BackTallyKeys(lines: map<int, Line>, ignore: seq<string>, sentence: seq<string>, refs: seq<Ref>)
    requires BackTally(lines, ignore, sentence, refs).Ok?
    ensures var t := BackTally(lines, ignore, sentence, refs).value;
            && DistinctKeys(t)
            && forall k :: k in Keys(t) && k != "" ==> exists q :: q in refs && Precedes(lines, ignore, q, k)
  {
    if refs != [] {
      var init := refs[..|refs| - 1];
      var q := refs[|refs| - 1];
      BackTallyKeys(lines, ignore, sentence, init);
      var t := BackTally(lines, ignore, sentence, init).value;
      assert refs == init + [q];
      if q.line in lines && q.pos < |lines[q.line].tokens| {
        var cwords := lines[q.line].tokens;
        if q.pos == 0 {
          BumpEffect(t, "", lines[q.line].weight);
        } else if !(|sentence| > 1 && |cwords| > q.pos + 1 && sentence[1] != cwords[q.pos + 1]) {
          var key := Before(ignore, cwords, q.pos);
          BumpEffect(t, key, lines[q.line].weight);
          assert q in refs && Precedes(lines, ignore, q, key);
        }
      }
    } else {
      assert Keys([("", 0)]) == {""};
    }
  }

  /** `post_words` is a dictionary whose every key but "" is found just
      after the word in one of the referenced lines. */
  lemma {:induction false} ForwardTallyKeys(lines: map<int, Line>, ignore: seq<string>, sentence: seq<string>, refs: seq<Ref>)
    requires ForwardTally(lines, ignore, sentence, refs).Ok?
    ensures var t := ForwardTally(lines, ignore, sentence, refs).value;
            && DistinctKeys(t)
            && forall k :: k in Keys(t) && k != "" ==> exists q :: q in refs && Follows(lines, ignore, q, k)
  {
    if refs != [] {
      var init := refs[..|refs| - 1];
      var q := refs[|refs| - 1];
      ForwardTallyKeys(lines, ignore, sentence, init);
      var t := ForwardTally(lines, ignore, sentence, init).value;
      assert refs == init + [q];
      if q.line in lines {
        var cwords := lines[q.line].tokens;
        var prev := PyIndex(|cwords|, q.pos - 1);
        if !(|sentence| > 1 && prev.None?) && !(|sentence| > 1 && sentence[|sentence| - 2] != cwords[prev.value]) {
          if q.pos < |cwords| - 1 {
            var key := After(ignore, cwords, q.pos);
            BumpEffect(t, key, lines[q.line].weight);
            assert q in refs && Follows(lines, ignore, q, key);
          } else {
            BumpEffect(t, "", lines[q.line].weight);
          }
        }
      }
    } else {
      assert Keys([("", 0)]) == {""};
    }
  }

  // ---------------------------------------------------------------------
  // Sorting and the weighted pick (pyborg.py:451-465, 525-534)

  /** Places `p` before the first entry whose weight is not larger. */
  function Insert(p: (string, int), s: Tally): (r: Tally)
    ensures |r| == |s| + 1
  {
    if s == [] then [p] else if s[0].1 <= p.1 then [p] + s else [s[0]] + Insert(p, s[1..])
  }

  /** `liste.sort(lambda x, y: cmp(y[1], x[1]))`: a stable sort by
      descending weight. */
  function SortDesc(s: Tally): (r: Tally)
    ensures |r| == |s|
  {
    if s == [] then [] else Insert(s[0], SortDesc(s[1..]))
  }

  predicate SortedDesc(s: Tally) {
    forall a, b :: 0 <= a < b < |s| ==> s[a].1 >= s[b].1
  }

  /** `Insert` adds `p` to the entries. */
  lemma {:induction false} InsertPermutes(p: (string, int), s: Tally)
    ensures multiset(Insert(p, s)) == multiset(s) + multiset{p}
  {
    if s != [] && s[0].1 > p.1 {
      InsertPermutes(p, s[1..]);
      assert Insert(p, s) == [s[0]] + Insert(p, s[1..]);
      assert s == [s[0]] + s[1..];
    }
  }

  /** Inserting an entry no heavier than `c` among entries no heavier than
      `c` gives entries no heavier than `c`. */
  lemma {:induction false} InsertAtMost(p: (string, int), s: Tally, c: int)
    requires p.1 <= c && forall i :: 0 <= i < |s| ==> s[i].1 <= c
    ensures forall i :: 0 <= i < |Insert(p, s)| ==> Insert(p, s)[i].1 <= c
  {
    if s != [] && s[0].1 > p.1 {
      InsertAtMost(p, s[1..], c);
      assert Insert(p, s) == [s[0]] + Insert(p, s[1..]);
    }
  }

  /** `Insert` keeps a sorted list sorted. */
  lemma {:induction false} InsertSorted(p: (string, int), s: Tally)
    requires SortedDesc(s)
    ensures SortedDesc(Insert(p, s))
  {
    if s != [] && s[0].1 > p.1 {
      InsertSorted(p, s[1..]);
      InsertAtMost(p, s[1..], s[0].1);
      var rest := Insert(p, s[1..]);
      var r := [s[0]] + rest;
      assert Insert(p, s) == r;
      forall a, b | 0 <= a < b < |r| ensures r[a].1 >= r[b].1 {
        assert r[b] == rest[b - 1];
        if a > 0 {
          assert r[a] == rest[a - 1];
        }
      }
    } else {
      assert Insert(p, s) == [p] + s;
    }
  }

  /** The sort orders by descending weight and keeps every entry. */
  lemma {:induction false} SortDescSpec(s: Tally)
    ensures SortedDesc(SortDesc(s))
    ensures multiset(SortDesc(s)) == multiset(s)
  {
    if s != [] {
      SortDescSpec(s[1..]);
      InsertSorted(s[0], SortDesc(s[1..]));
      InsertPermutes(s[0], SortDesc(s[1..]));
      assert s == [s[0]] + s[1..];
    }
  }

  /** Sum of the weights of `l`. */
  function Total(l: Tally): int {
    if l == [] then 0 else Total(l[..|l| - 1]) + l[|l| - 1].1
  }

  /** `numbers`: the running totals of the sorted candidates' weights. */
  function Sums(l: Tally): (numbers: seq<int>)
    ensures |numbers| == |l|
  {
    seq(|l|, i requires 0 <= i < |l| => Total(l[..i + 1]))
  }

  /** The last running total is the total weight, and with no negative
      weight the totals never decrease. */
  lemma SumsShape(l: Tally)
    requires |l| > 0
    ensures Sums(l)[|l| - 1] == Total(l)
    ensures (forall i :: 0 <= i < |l| ==> l[i].1 >= 0) ==> forall a, b :: 0 <= a <= b < |l| ==> Sums(l)[a] <= Sums(l)[b]
  {
    assert l[..|l|] == l;
    if forall i :: 0 <= i < |l| ==> l[i].1 >= 0 {
      forall a, b | 0 <= a <= b < |l| ensures Sums(l)[a] <= Sums(l)[b] {
        TotalGrows(l, a + 1, b + 1);
      }
    }
  }

  lemma {:induction false} TotalGrows(l: Tally, m: nat, n: nat)
    requires m <= n <= |l|
    requires forall i :: 0 <= i < |l| ==> l[i].1 >= 0
    ensures Total(l[..m]) <= Total(l[..n])
    decreases n
  {
    if m < n {
      TotalGrows(l, m, n - 1);
      assert l[..n][..n - 1] == l[..n - 1];
    }
  }

  /** The first index from `from` on whose running total reaches `r`. */
  function FirstAtLeast(numbers: seq<int>, r: int, from: nat): (x: nat)
    requires from < |numbers| && r <= numbers[|numbers| - 1]
    ensures from <= x < |numbers| && r <= numbers[x]
    ensures forall j :: from <= j < x ==> numbers[j] < r
    decreases |numbers| - from
  {
    if r <= numbers[from] then from else FirstAtLeast(numbers, r, from + 1)
  }

  /** With no negative weight, the pick lands on `x` exactly when the draw
      falls in `x`'s share `(numbers[x-1], numbers[x]]`: every candidate is
      chosen in proportion to its weight. */
  lemma PickShare(l: Tally, r: int, x: nat)
    requires |l| > 0 && 0 <= r <= Total(l) && x < |l|
    requires forall i :: 0 <= i < |l| ==> l[i].1 >= 0
    ensures Sums(l)[|l| - 1] == Total(l)
    ensures FirstAtLeast(Sums(l), r, 0) == x <==> (x == 0 || Sums(l)[x - 1] < r) && r <= Sums(l)[x]
  {
    SumsShape(l);
  }

  /** `random.randint(0, numbers[-1])` and the scan for the first running
      total reaching the draw (pyborg.py:457-465): the index of the pick. */
  function Pick(l: Tally, d: int): (r: Res<nat>)
    requires |l| > 0
    ensures r.Ok? ==> r.value < |l|
  {
    var numbers := Sums(l);
    match RandInt(0, numbers[|l| - 1], d)
    case Err(e) => Err(e)
    case Ok(v) => Ok(FirstAtLeast(numbers, v, 0))
  }

  /** The backward retry loop (pyborg.py:468-472): the next candidates are
      tried while the pick is already in the sentence; running past the end
      of the list is an `IndexError` (its `mot = ''` is overwritten at once). */
  function BackSkip(l: Tally, sentence: seq<string>, x: nat, mot: string): (r: Res<string>)
    ensures r.Ok? ==> r.value !in sentence
    decreases |l| - x
  {
    if mot !in sentence then Ok(mot)
    else if x + 1 >= |l| then Err(IndexError)
    else BackSkip(l, sentence, x + 1, l[x + 1].0)
  }

  /** The forward retry loop (pyborg.py:536-542): from the top of the list,
      ending the walk with "" when the next-to-last entry is passed. */
  function ForwardSkip(l: Tally, sentence: seq<string>, x: int, mot: string): (r: string)
    requires x >= -1
    ensures r == "" || r !in sentence
    decreases |l| - x
  {
    if mot !in sentence then mot
    else if x + 1 >= |l| - 1 then ""
    else ForwardSkip(l, sentence, x + 1, l[x + 1].0)
  }

  // ---------------------------------------------------------------------
  // The walks

  /** One round of the backward loop (pyborg.py:418-479): the pieces of the
      chosen candidate, `[""]` when the walk is over. */
  function BackStep(words: Index, lines: map<int, Line>, ignore: seq<string>, sentence: seq<string>, d: int): Res<seq<string>>
    requires |sentence| > 0
  {
    var word := SplitOn(sentence[0], " ")[0];
    if word !in words then Err(KeyError)
    else
      var refs := words[word];
      match BackTally(lines, ignore, sentence, refs[..if refs == [] then 0 else |refs| - 1])
      case Err(e) => Err(e)
      case Ok(t) =>
        var l := SortDesc(t);
        match Pick(l, d)
        case Err(e) => Err(e)
        case Ok(x) =>
          match BackSkip(l, sentence, x, l[x].0)
          case Err(e) => Err(e)
          case Ok(mot) => Ok(SplitOn(mot, " "))
  }

  /** One round of the forward loop (pyborg.py:494-548). */
  function ForwardStep(words: Index, lines: map<int, Line>, ignore: seq<string>, sentence: seq<string>, d: int): Res<seq<string>>
    requires |sentence| > 0
  {
    var pieces := SplitOn(sentence[|sentence| - 1], " ");
    var word := pieces[|pieces| - 1];
    if word !in words then Err(KeyError)
    else
      match ForwardTally(lines, ignore, sentence, words[word])
      case Err(e) => Err(e)
      case Ok(t) =>
        var l := SortDesc(t);
        match Pick(l, d)
        case Err(e) => Err(e)
        case Ok(x) => Ok(SplitOn(ForwardSkip(l, sentence, -1, l[x].0), " "))
  }

  /** The backward loop: prepend pieces until "" is drawn. Yields the
      sentence and the unused draws. */
  function BackWalk(words: Index, lines: map<int, Line>, ignore: seq<string>, sentence: seq<string>, draws: seq<int>): (r: Res<(seq<string>, seq<int>)>)
    requires |sentence| > 0
    ensures r.Ok? ==> |r.value.1| < |draws|
    ensures r.Ok? ==> |r.value.0| >= |sentence| && r.value.0[|r.value.0| - |sentence|..] == sentence
    decreases |draws|
  {
    if draws == [] then Err(DrawsExhausted)
    else
      match BackStep(words, lines, ignore, sentence, draws[0])
      case Err(e) => Err(e)
      case Ok(pieces) =>
        if pieces == [""] then Ok((sentence, draws[1..]))
        else
          var r := BackWalk(words, lines, ignore, pieces + sentence, draws[1..]);
          if r.Ok? then SuffixOfSuffix(r.value.0, pieces, sentence); r else r
  }

  /** A suffix of a suffix is a suffix. */
  lemma SuffixOfSuffix(s: seq<string>, a: seq<string>, b: seq<string>)
    requires |s| >= |a + b| && s[|s| - |a + b|..] == a + b
    ensures |s| >= |b| && s[|s| - |b|..] == b
  {
    assert s[|s| - |b|..] == s[|s| - |a + b|..][|a|..];
  }

  /** The forward loop: append pieces until "" is drawn. */
  function ForwardWalk(words: Index, lines: map<int, Line>, ignore: seq<string>, sentence: seq<string>, draws: seq<int>): (r: Res<(seq<string>, seq<int>)>)
    requires |sentence| > 0
    ensures r.Ok? ==> |r.value.1| < |draws|
    ensures r.Ok? ==> sentence <= r.value.0
    decreases |draws|
  {
    if draws == [] then Err(DrawsExhausted)
    else
      match ForwardStep(words, lines, ignore, sentence, draws[0])
      case Err(e) => Err(e)
      case Ok(pieces) =>
        if pieces == [""] then Ok((sentence, draws[1..]))
        else ForwardWalk(words, lines, ignore, sentence + pieces, draws[1..])
  }

  /** Both walks from the seed (pyborg.py:416-550): the backward walk,
      then the forward walk from its last two words, joined. */
  function Walks(words: Index, lines: map<int, Line>, ignore: seq<string>, seed: string, draws: seq<int>): (r: Res<seq<string>>)
    ensures r.Ok? ==> seed in r.value
  {
    match BackWalk(words, lines, ignore, [seed], draws)
    case Err(e) => Err(e)
    case Ok((pre, rest)) =>
      assert pre[|pre| - 1] == pre[|pre| - 1..][0];
      Continue(words, lines, ignore, pre, rest)
  }

  /** The forward walk from the last two words of `pre`, whose result
      replaces them (pyborg.py:481-550). */
  function Continue(words: Index, lines: map<int, Line>, ignore: seq<string>, pre: seq<string>, draws: seq<int>): (r: Res<seq<string>>)
    requires |pre| > 0
    ensures r.Ok? ==> pre[|pre| - 1] in r.value
  {
    var n := if |pre| >= 2 then |pre| - 2 else 0;
    match ForwardWalk(words, lines, ignore, pre[n..], draws)
    case Err(e) => Err(e)
    case Ok((post, _)) =>
      SeedKept(pre, post, pre[|pre| - 1], n);
      Ok(pre[..n] + post)
  }

  /** The last word of the backward sentence survives the join. */
  lemma SeedKept(pre: seq<string>, post: seq<string>, seed: string, n: nat)
    requires n < |pre| && pre[|pre| - 1] == seed
    requires pre[n..] <= post
    ensures seed in pre[..n] + post
  {
    assert post[|pre| - 1 - n] == pre[n..][|pre| - 1 - n];
    assert (pre[..n] + post)[|pre| - 1] == post[|pre| - 1 - n];
  }

  /** The words of the reply before formatting (pyborg.py:380-550); empty
      when the reply is "". */
  function Generate(words: Index, lines: map<int, Line>, ignore: seq<string>, body: string, draws: seq<int>): Res<seq<string>> {
    var toks := Split(body);
    var seed := Seed(words, ignore, toks, if draws == [] then 0 else draws[0]);
    if toks == [] || seed.None? then Ok([])
    else if draws == [] then Err(DrawsExhausted)
    else Walks(words, lines, ignore, seed.value, draws[1..])
  }

  /** The reply is "" when the input has no token or no eligible word. */
  lemma GenerateEmpty(words: Index, lines: map<int, Line>, ignore: seq<string>, body: string, draws: seq<int>)
    requires Split(body) == [] || forall x :: x in Candidates(Split(body), ignore) ==> !Eligible(words, x)
    ensures Generate(words, lines, ignore, body, draws) == Ok([])
  {
    var cands := Candidates(Split(body), ignore);
    var index := Ties(words, cands, MinCount(words, cands));
    TiesMembers(words, cands, MinCount(words, cands));
  }

  /** A generated reply contains its seed, an eligible input word with the
      fewest contexts among the eligible input words. */
  lemma GenerateKeepsSeed(words: Index, lines: map<int, Line>, ignore: seq<string>, body: string, draws: seq<int>)
    requires Split(body) != [] && draws != []
    requires Seed(words, ignore, Split(body), draws[0]).Some?
    requires Generate(words, lines, ignore, body, draws).Ok?
    ensures var seed := Seed(words, ignore, Split(body), draws[0]).value;
            && seed in Generate(words, lines, ignore, body, draws).value
            && Eligible(words, seed)
            && forall y :: y in Candidates(Split(body), ignore) && Eligible(words, y) ==> |words[seed]| <= |words[y]|
  {
    var seed := Seed(words, ignore, Split(body), draws[0]).value;
    TiesAreRarest(words, Candidates(Split(body), ignore));
  }

  // ---------------------------------------------------------------------
  // Formatting (pyborg.py:552-573)

  /** Strips a leading alias marker '~'; `w[0]` on "" is an `IndexError`. */
  function Unalias(w: string): Res<string> {
    if w == "" then Err(IndexError) else if w[0] == '~' then Ok(w[1..]) else Ok(w)
  }

  /** The alias loop (pyborg.py:553-555). */
  function StripAliases(s: seq<string>): (r: Res<seq<string>>)
    ensures r.Ok? <==> forall i :: 0 <= i < |s| ==> s[i] != ""
    ensures r.Ok? ==> |r.value| == |s| && forall i :: 0 <= i < |s| ==> Unalias(s[i]) == Ok(r.value[i])
    ensures r.Err? ==> r.fault == IndexError
  {
    if s == [] then Ok([])
    else
      match Unalias(s[0])
      case Err(e) => Err(e)
      case Ok(u) =>
        match StripAliases(s[1..])
        case Err(e) => Err(e)
        case Ok(rest) => Ok([u] + rest)
  }

  /** The words with a " " between each two (pyborg.py:559). */
  function Interleave(s: seq<string>): (r: seq<string>)
    ensures |s| > 0 ==> |r| == 2 * |s| - 1
    ensures forall w :: w in r ==> w == " " || w in s
  {
    if |s| <= 1 then s else [s[0], " "] + Interleave(s[1..])
  }

  /** Even positions hold the words in order, odd positions a space. */
  lemma {:induction false} InterleaveShape(s: seq<string>)
    ensures forall i :: 0 <= i < |s| ==> Interleave(s)[2 * i] == s[i]
    ensures forall i :: 0 <= i < |s| - 1 ==> Interleave(s)[2 * i + 1] == " "
  {
    if |s| > 1 {
      InterleaveShape(s[1..]);
      var rest := Interleave(s[1..]);
      forall i | 1 <= i < |s| ensures Interleave(s)[2 * i] == s[i] {
        assert Interleave(s)[2 * i] == rest[2 * (i - 1)];
      }
      forall i | 1 <= i < |s| - 1 ensures Interleave(s)[2 * i + 1] == " " {
        assert Interleave(s)[2 * i + 1] == rest[2 * (i - 1) + 1];
      }
    }
  }

  /** Joining the interleaved list with "" is joining the words with " ". */
  lemma {:induction false} InterleaveJoin(s: seq<string>)
    ensures JoinWith(Interleave(s), "") == Join(s)
  {
    if |s| > 1 {
      InterleaveJoin(s[1..]);
      var rest := Interleave(s[1..]);
      var parts := Interleave(s);
      assert |rest| >= 1;
      assert parts == [s[0]] + ([" "] + rest);
      assert parts[1..] == [" "] + rest;
      assert ([" "] + rest)[1..] == rest;
      calc {
        JoinWith(parts, "");
        s[0] + "" + JoinWith([" "] + rest, "");
        s[0] + "" + (" " + "" + JoinWith(rest, ""));
        { assert s[0] + "" + (" " + "" + Join(s[1..])) == s[0] + " " + Join(s[1..]); }
        Join(s);
      }
    }
  }

  /** The tokens that glue to their neighbours. */
  predicate Mark(w: string) {
    w == "'" || w == "?" || w == "!" || w == ","
  }

  /** Position before `x`, wrapping to the last one as `x - 1` does in Python. */
  function Prev(n: nat, x: nat): nat
    requires x < n
  {
    if x == 0 then n - 1 else x - 1
  }

  /** One round of the punctuation loop (pyborg.py:564-570): "'" blanks
      both neighbours, '?', '!' and ',' blank the previous entry; blanking
      past the end is an `IndexError`. */
  function PunctAt(s: seq<string>, x: nat): (r: Res<seq<string>>)
    requires x < |s|
    ensures r.Ok? ==> |r.value| == |s| && forall i :: 0 <= i < |s| ==> r.value[i] == s[i] || r.value[i] == ""
  {
    if s[x] == "'" then
      if x + 1 >= |s| then Err(IndexError) else Ok(s[Prev(|s|, x) := ""][x + 1 := ""])
    else if s[x] == "?" || s[x] == "!" || s[x] == "," then Ok(s[Prev(|s|, x) := ""])
    else Ok(s)
  }

  /** The punctuation loop over the first `n` positions. */
  function Punctuate(s: seq<string>, n: nat): (r: Res<seq<string>>)
    requires n <= |s|
    ensures r.Ok? ==> |r.value| == |s|
  {
    if n == 0 then Ok(s)
    else
      match Punctuate(s, n - 1)
      case Err(e) => Err(e)
      case Ok(t) => PunctAt(t, n - 1)
  }

  /** After the punctuation loop every mark is glued: the entry before a
      '?', '!', ',' or "'" and the entry after a "'" are blank; entries are
      only ever blanked. */
  lemma {:induction false} PunctuateGlues(s: seq<string>, n: nat)
    requires n <= |s|
    requires Punctuate(s, n).Ok?
    ensures var r := Punctuate(s, n).value;
            && (forall i :: 0 <= i < |s| ==> r[i] == s[i] || r[i] == "")
            && (forall x :: 0 <= x < n && Mark(r[x]) ==> r[Prev(|s|, x)] == "")
            && (forall x :: 0 <= x < n && r[x] == "'" ==> x + 1 < |s| && r[x + 1] == "")
  {
    if n > 0 {
      PunctuateGlues(s, n - 1);
    }
  }

  /** Without marks the punctuation loop changes nothing. */
  lemma {:induction false} PunctuateNoMarks(s: seq<string>, n: nat)
    requires n <= |s|
    requires forall i :: 0 <= i < |s| ==> !Mark(s[i])
    ensures Punctuate(s, n) == Ok(s)
  {
    if n > 0 {
      PunctuateNoMarks(s, n - 1);
    }
  }

  /** The reply text for generated words (pyborg.py:552-573). */
  function Format(ws: seq<string>): Res<string> {
    match StripAliases(ws)
    case Err(e) => Err(e)
    case Ok(u) =>
      var spaced := Interleave(u);
      match Punctuate(spaced, |spaced|)
      case Err(e) => Err(e)
      case Ok(p) => Ok(JoinWith(p, ""))
  }

  /** Words without alias markers are kept by the alias loop. */
  lemma {:induction false} StripAliasesPlain(ws: seq<string>)
    requires forall i :: 0 <= i < |ws| ==> ws[i] != "" && ws[i][0] != '~'
    ensures StripAliases(ws) == Ok(ws)
  {
    if ws != [] {
      StripAliasesPlain(ws[1..]);
      assert ws == [ws[0]] + ws[1..];
    }
  }

  /** Words without alias markers or marks are joined by single spaces. */
  lemma FormatPlain(ws: seq<string>)
    requires forall i :: 0 <= i < |ws| ==> ws[i] != "" && ws[i][0] != '~' && !Mark(ws[i])
    ensures Format(ws) == Ok(Join(ws))
  {
    StripAliasesPlain(ws);
    var spaced := Interleave(ws);
    forall i | 0 <= i < |spaced| ensures !Mark(spaced[i]) {
      assert spaced[i] in spaced;
    }
    PunctuateNoMarks(spaced, |spaced|);
    InterleaveJoin(ws);
  }

  /** `reply(body)`: "" when no words were generated, else the formatted words. */
  function Reply(words: Index, lines: map<int, Line>, ignore: seq<string>, body: string, draws: seq<int>): Res<string> {
    match Generate(words, lines, ignore, body, draws)
    case Err(e) => Err(e)
    case Ok(ws) => if ws == [] then Ok("") else Format(ws)
  }
}
