# PyBorg knowledge store

A Dafny model of the knowledge store of PyBorg's `PyborgBrain`
(`pyborg.py`), the chat bot's word/context memory, with proofs about it.

The store has three parts:

- `words`, an inverted index. It maps every known word to its list of
  context references. A reference is the pair `(line hash, position)` that
  the source packs with `struct.pack("lH", ...)`.
- `lines`, a deduplicated line table. It maps the hash of a cleaned sentence
  to its tokens and its weight.
- The counters `num_words` and `num_contexts`, plus the `learning` switch.

The operations are `learn_sentence`, `learn`, `unlearn_word`,
`replace_word`, `checkdict`, `rebuilddict`, `purge`, `known` and `reply`.

Modules, one per file:

- `Text` (text.dfy): the Python 2 byte-string primitives the brain uses.
  These are `split()`, `split(sep)`, `" ".join`, character classes,
  substring search and lower-casing.
- `Knowledge` (knowledge.dfy): the store as a value (`Store`) and the
  settings. It also holds the store invariant `Consistent`:
  - every reference names an existing line whose token at that position is
    the word;
  - every position of every line is referenced;
  - no word has an empty list, and no list repeats a reference;
  - the counters equal the true cardinalities.
- `Learning`, `Unlearning`, `Replacing`, `Maintenance`, `Generation`: each
  operation as a function from the old store to the new one, with lemmas
  about what one call does and about the invariant.
- `Replying` (replying.dfy): the loops of `reply`, written as the source
  runs them. Each method is proved to compute its `Generation` function.
- `Brain` (brain.dfy): the class `PyborgBrain`, whose fields are the store.
  Its methods update the fields in place, and each is proved to leave the
  store its specification function gives. The loops of the operations are
  module-level methods on values, proved against the same functions.

Each line keeps its token sequence rather than its joined text.
`Text.SplitJoin` shows the two hold the same information, because every
token comes from `str.split()`.

Randomness is a parameter: `reply` takes a sequence of draws. The `k`-th
call to `random.randint(a, b)` returns `a + d % (b - a + 1)` for the `k`-th
draw `d`. When the draws run out, the reply ends with `DrawsExhausted`.

Python exceptions that the reply code can raise become `Err` values:
`KeyError`, `IndexError`, and `ValueError` from `randint` on an empty range.

Python's `hash` is a parameter of the brain. The iteration order of a
dictionary's keys is a parameter (`order`) of the operations that loop over
one.

## Model

| member | source | states |
|---|---|---|
| Text.Split | pyborg.py:256 | `sentence.split()` yields only non-empty tokens without whitespace |
| Text.SplitJoin | pyborg.py:301-304 | splitting the space-joined tokens of a sentence gives the tokens back, so a line stored as tokens loses nothing of its text |
| Text.SplitOn | pyborg.py:332 | `body.split('. ')` always yields at least one piece |
| Text.JoinSplitOn | pyborg.py:332 | joining the pieces of `body.split('. ')` with ". " gives the body back: `learn` drops no text |
| Text.SplitOnWhole | pyborg.py:332 | a body in which ". " never occurs is one sentence |
| Text.Lower | pyborg.py:627 | `word.lower()` keeps the length and lowers exactly the ASCII capitals, byte by byte |
| Text.PaddedTokenFound | pyborg.py:343-352 | every token of a line, padded with spaces, is found in the space-padded text of the line |
| Knowledge.EmptyConsistent | pyborg.py:690-693 | the empty store that `rebuilddict` starts from satisfies the store invariant |
| Learning.Nicks | pyborg.py:294 | each token holding '-' or '_' becomes "#nick", every other token is kept, the length is unchanged |
| Learning.LearnRefused | pyborg.py:256-292 | an empty sentence, or one with a censored, new-while-learning-off, too long, mixed alphanumeric or vowel-poor word, leaves words, lines and both counters unchanged. Vowels are counted byte by byte against the literal at pyborg.py:263 as stored, double-encoded, so 0x83 and 0xC2 count as vowels |
| Learning.LearnKnownLine | pyborg.py:301-307 | a sentence whose cleaned hash is already a line only adds its weight to that line; words, num_words and num_contexts are unchanged, and learning latches off at the word limit |
| Learning.LearnNewLine | pyborg.py:294-325 | a new sentence creates one line with the given weight and appends `(h, i)` to the list of token i. It adds the number of tokens to num_contexts and the number of previously unknown distinct tokens to num_words. Tokens with '-' or '_' are stored as "#nick" |
| Learning.LearnLatch | pyborg.py:323-325 | after learning a sentence, `num_words >= max_words` means learning is off |
| Learning.RefsAtMembers | pyborg.py:313-320 | the references a new line gives a word are exactly the positions holding it, in increasing position order |
| Learning.LinkWordsKeys | pyborg.py:313-318 | after the linking loop the words are the old words plus the line's tokens |
| Learning.LinkWordsAt | pyborg.py:313-320 | after the linking loop, each word's list is its old list followed by the references of its positions in the new line |
| Learning.LinkWordsRefCount | pyborg.py:319-320 | the linking loop adds exactly one reference per position |
| Learning.LinkWordsKeyCount | pyborg.py:314-317 | the linking loop adds exactly one word per previously unknown distinct token |
| Learning.LinkWordsFacts | pyborg.py:313-320 | after linking, old lists are prefixes of the new ones; every added reference points into the new line at a position holding the word, without repetition; every position is referenced |
| Learning.AddLineCounters | pyborg.py:309-320 | storing a new line keeps num_words and num_contexts equal to the true counts |
| Learning.AddLineLinked | pyborg.py:309-320 | storing a line under a fresh hash keeps every reference valid, every position indexed, no list empty and no reference repeated |
| Learning.AddLineConsistent | pyborg.py:309-320 | storing a line under a fresh hash keeps the store invariant |
| Learning.ReweighConsistent | pyborg.py:306-307 | adding to a known line's weight keeps the store invariant |
| Learning.LearnSentenceConsistent | pyborg.py:252-325 | `learn_sentence` keeps the store invariant |
| Learning.LearnAllConsistent | pyborg.py:327-333 | `learn` over any number of sentences keeps the store invariant |
| Learning.LearnSentenceAsWrittenStore | pyborg.py:265-292 | as written, a sentence raises NameError only where it is refused, and a single call leaves the same store as the corrected model: the exception comes before any update |
| Learning.LearnAllAsWrittenAgrees | pyborg.py:327-333 | when no sentence raises, `learn` as written and as corrected leave the same store |
| Learning.LearnAsWrittenStops | pyborg.py:290-333 | as written, a first sentence that raises ends `learn` with the store unchanged: nothing after it is learned |
| Learning.LearnSkipsRefused | pyborg.py:327-333 | as intended, a refused first sentence is skipped and the rest of the body is learned as if it stood alone |
| Learning.RhythmRaises | pyborg.py:276-292 | "rhythm", one vowel in six bytes, raises as written once the minimum vowel ratio is above 1/6 and the word passes the earlier tests |
| Learning.VowelPoorBodyExample | pyborg.py:290-333 | for the body "rhythm. hello" into an empty store with learning on: as written nothing is learned and the NameError escapes; as intended "hello" is learned |
| Unlearning.KeepRefs | pyborg.py:366-370 | the backward deleting loop keeps exactly the references not into deleted lines and never lengthens the list |
| Unlearning.TouchedMembers | pyborg.py:354-357 | every token of a deleted line is in `wordlist` |
| Unlearning.UnlearnPurges | pyborg.py:343-373 | after `unlearn_word(p)`, every remaining line is an old line whose padded text does not contain " p "; given valid references, no word keeps a reference into a deleted line |
| Unlearning.UnlearnDeletes | pyborg.py:362-373 | a word disappears exactly when it was touched and lost every reference; num_words drops by the number of disappeared words |
| Unlearning.UnlearnCounters | pyborg.py:362-373 | num_contexts drops by exactly the references removed and num_words by the words deleted, so exact counters stay exact |
| Unlearning.UnlearnRefsValid | pyborg.py:343-373 | unlearning keeps every reference valid |
| Unlearning.UnlearnIndexed | pyborg.py:343-373 | unlearning keeps every position of every remaining line indexed |
| Unlearning.UnlearnNoEmptyNoDuplicate | pyborg.py:362-373 | unlearning leaves no empty list and no repeated reference |
| Unlearning.KeepRefsDistinct | pyborg.py:366-370 | deleting references from a list without repetitions leaves one without repetitions |
| Unlearning.UnlearnConsistent | pyborg.py:335-374 | `unlearn_word` keeps the store invariant |
| Unlearning.ConsistentCanUnlearn | pyborg.py:364 | in an indexed store the lookup `words[x]` succeeds for every touched word |
| Unlearning.UnlearnRemovesWord | pyborg.py:335-340 | in a consistent store, unlearning a known single word removes that word |
| Replacing.DoubledIsPow2 | pyborg.py:590-597 | adding the weight to itself once per rewritten position multiplies it by 2^k |
| Replacing.Rewrite | pyborg.py:585-598 | the rewriting loop keeps the set of lines and each line's length, and counts at most one change per pointer |
| Replacing.RewriteEffect | pyborg.py:585-598 | with distinct pointers that all find the word, every pointer counts once; exactly the pointed positions become `to`; each line's weight is doubled once per pointer into it |
| Replacing.PointersAreOccurrences | pyborg.py:585-591 | in a consistent store the pointers of a word are exactly its occurrences in the lines |
| Replacing.ReplaceUnknown | pyborg.py:580-583 | an unknown word is reported as not known and nothing changes |
| Replacing.ReplaceEffect | pyborg.py:575-607 | on a consistent store, every occurrence of `from` becomes `to` and their number is reported. Each line's weight doubles per occurrence. `to`'s list becomes its old list followed by `from`'s, and `from` is gone. num_words drops by one exactly when `to` was known; num_contexts is unchanged |
| Replacing.ReplaceSelf | pyborg.py:600-606 | replacing a word by itself, as evidently intended, leaves the index and the counters alone |
| Replacing.ReplaceConsistent | pyborg.py:575-607 | `replace_word` (corrected for `from == to`) keeps the store invariant |
| Replacing.MovedRefsValid | pyborg.py:600-606 | moving `from`'s list behind `to`'s after renaming its occurrences keeps every reference valid |
| Replacing.MovedIndexed | pyborg.py:600-606 | the move keeps every position indexed |
| Replacing.MovedNoDuplicates | pyborg.py:600-606 | the move leaves no empty list and no repeated reference |
| Replacing.MovedCounters | pyborg.py:600-606 | the move keeps the counters exact: one word fewer exactly when `to` was known |
| Replacing.ReplaceSelfAsWrittenBreaks | pyborg.py:600-606 | as written, `replace_word(w, w)` on a consistent one-line store deletes `w` while the line still holds it, so the index and counters are wrong |
| Maintenance.GoodRefs | pyborg.py:655-670 | the audit keeps exactly the references into existing lines that hold the word, never more than the list had |
| Maintenance.AuditSplit | pyborg.py:655-670 | every reference of a list is kept, counted broken or counted bad |
| Maintenance.AuditValid | pyborg.py:655-670 | a list of valid references is kept whole, with nothing broken or bad |
| Maintenance.CheckdictRepairs | pyborg.py:648-677 | after `checkdict` every remaining reference is valid and no word is empty. Lines and num_contexts are unchanged, and num_words drops once per vanished word. The index stays complete and without repetitions when it was before |
| Maintenance.GoodRefsDistinct | pyborg.py:655-670 | the audit of a list without repetitions has no repetitions |
| Maintenance.CheckdictTwice | pyborg.py:648-677 | a second `checkdict` right after the first reports 0 broken and 0 bad and changes nothing |
| Maintenance.ValidInRange | pyborg.py:667 | with valid references the lookup `split_line[word_num]` always succeeds |
| Maintenance.AuditValidAll | pyborg.py:655-674 | on valid references the audit keeps every list and finds no broken or bad reference |
| Maintenance.AuditNothing | pyborg.py:648-677 | on a store with valid references and no empty word `checkdict` changes nothing and reports 0 and 0 |
| Maintenance.AuditSplitAll | pyborg.py:655-670 | the references before the audit are those kept plus those counted broken or bad |
| Maintenance.CheckdictStaleContexts | pyborg.py:662-673 | `checkdict` removes broken + bad references but leaves num_contexts as it was, which then overcounts by exactly that number |
| Maintenance.ReplayConsistent | pyborg.py:698-699 | replaying old lines through `learn` keeps the store invariant |
| Maintenance.RebuildConsistent | pyborg.py:683-699 | with learning on, `rebuilddict` leaves a consistent store whatever the state before; with learning off it changes nothing |
| Maintenance.ReplayAsWrittenAgrees | pyborg.py:695-699 | when no line raises, the replay as written and as corrected leave the same store |
| Maintenance.RebuildAsWrittenLoses | pyborg.py:683-699 | a store of the lines "rhythm" and "hello": as written `rebuilddict` ends empty with the NameError, having lost both lines; as intended "hello" is learned again |
| Maintenance.SelectSpec | pyborg.py:711-727 | `purge` collects only rare words (under two contexts, or letters mixed with digits) of the iteration order, in order. With `cMax >= 1` it collects at most `cMax`; with `cMax < 1`, every rare word |
| Maintenance.UnlearnAllRemoves | pyborg.py:742 | unlearning the collected words one after another never fails, keeps the invariant, deletes each of them and adds no word |
| Maintenance.PurgeEffect | pyborg.py:703-745 | `purge` reports how many rare words it collected. With `cMax < 1` it changes nothing and counts every rare word. Otherwise it removes at most `cMax` words, each of them rare, and keeps the invariant |
| Generation.RandInt | pyborg.py:413 | `random.randint(a, b)` succeeds exactly when `a <= b`, with a result in `[a, b]` |
| Generation.RandIntReaches | pyborg.py:413 | every value of the range is drawn by some draw |
| Generation.PyIndex | pyborg.py:509 | a Python index `cwords[w - 1]` is valid exactly from `-n` to `n - 1`; a negative one counts from the end |
| Generation.Candidates | pyborg.py:392 | the seed candidates are exactly the input words that are neither ignored nor numeric |
| Generation.MinCountIsMin | pyborg.py:395-410 | `known` ends as -1 exactly when no candidate is known in more than 3 contexts, and otherwise as the smallest such context count |
| Generation.TiesMembers | pyborg.py:395-410 | `index` holds exactly the eligible candidates whose count is the given one |
| Generation.TiesAreRarest | pyborg.py:395-410 | `index` holds exactly the eligible candidates whose context count is no larger than any other eligible candidate's |
| Generation.Seed | pyborg.py:411-413 | a drawn seed is one of the tied rarest words |
| Generation.SeedReaches | pyborg.py:411-413 | every tied rarest word can be the seed |
| Generation.BumpEffect | pyborg.py:444-448 | adding to a tally entry raises that key's count by the weight, adds the key, and keeps the keys distinct |
| Generation.BackTally | pyborg.py:420-448 | `pre_words` always holds its initial "" entry first |
| Generation.BackTallyKeys | pyborg.py:420-448 | `pre_words` has distinct keys, and every key but "" occurs just before the word (or two before, across an ignored word) in a referenced line |
| Generation.ForwardTally | pyborg.py:498-522 | `post_words` always holds its initial "" entry first |
| Generation.ForwardTallyKeys | pyborg.py:498-522 | `post_words` has distinct keys, and every key but "" occurs just after the word in a referenced line |
| Generation.SortDescSpec | pyborg.py:451-452 | sorting by descending weight yields a sorted permutation of the entries |
| Generation.SumsShape | pyborg.py:455-457 | the last running total is the total weight, and with no negative weight the totals never decrease |
| Generation.FirstAtLeast | pyborg.py:461-465 | the scan stops at the first running total reaching the draw, and always inside the list |
| Generation.PickShare | pyborg.py:459-465 | with non-negative weights the pick lands on `x` exactly when the draw falls in `(numbers[x-1], numbers[x]]`: each candidate is chosen in proportion to its weight |
| Generation.Pick | pyborg.py:459-465 | a successful pick is an index of the candidate list |
| Generation.BackSkip | pyborg.py:468-472 | the backward retry ends on a word not yet in the sentence, or fails past the end of the list |
| Generation.ForwardSkip | pyborg.py:536-542 | the forward retry ends on a word not yet in the sentence or on "" |
| Generation.BackWalk | pyborg.py:416-479 | the backward walk uses at least one draw per round and only grows the sentence in front: the starting sentence stays its suffix |
| Generation.ForwardWalk | pyborg.py:490-548 | the forward walk uses at least one draw per round and only grows the sentence at the end |
| Generation.Continue | pyborg.py:481-550 | the forward walk from the last two words of the backward sentence still contains the seed |
| Generation.Walks | pyborg.py:416-550 | the joined sentence of both walks still contains the seed |
| Generation.GenerateEmpty | pyborg.py:381-414 | the reply is "" when the input has no token, or no candidate is known in more than 3 contexts |
| Generation.GenerateKeepsSeed | pyborg.py:381-550 | a generated reply contains its seed, an eligible input word with the fewest contexts among the eligible input words |
| Generation.StripAliases | pyborg.py:553-555 | the alias loop strips one leading '~' from each word, and fails with IndexError exactly when a word is empty |
| Generation.InterleaveShape | pyborg.py:559 | after inserting the spaces the words sit at even positions in order, with " " between them |
| Generation.InterleaveJoin | pyborg.py:559-573 | joining the spaced list with "" is joining the words with single spaces |
| Generation.PunctAt | pyborg.py:564-570 | one round of the punctuation loop only blanks entries and keeps the length |
| Generation.PunctuateGlues | pyborg.py:564-570 | after the punctuation loop the entry before every "'", '?', '!' or ',' is blank, as is the entry after every "'"; entries are only ever blanked |
| Generation.PunctuateNoMarks | pyborg.py:564-570 | without marks the punctuation loop changes nothing |
| Generation.FormatPlain | pyborg.py:552-573 | words without alias markers or marks come out joined by single spaces |
| Replying.Tokens | pyborg.py:381-385 | re-splitting every token of `body.split()` gives exactly `body.split()` |
| Replying.SeedStep | pyborg.py:399-410 | one more candidate restarts `index` at a new minimum, joins it on a tie, and otherwise leaves `index` and `known` alone |
| Replying.RarestWords | pyborg.py:391-410 | the rarest-word loop leaves in `index` the tied rarest eligible candidates, in input order |
| Replying.CollectBack | pyborg.py:420-448 | the `pre_words` loop over all references but the last computes the backward tally |
| Replying.CollectForward | pyborg.py:498-522 | the `post_words` loop over all references computes the forward tally |
| Replying.RunningTotals | pyborg.py:455-457 | `numbers` holds the running totals of the sorted weights |
| Replying.FirstReaching | pyborg.py:461-465 | the scan finds the first running total reaching the draw |
| Replying.SkipBack | pyborg.py:468-472 | the backward retry loop computes the backward skip, including its IndexError past the end |
| Replying.SkipForward | pyborg.py:536-542 | the forward retry loop computes the forward skip |
| Replying.BackRound | pyborg.py:418-476 | one pass of the backward loop yields the pieces of the chosen word, or the error the source raises |
| Replying.ForwardRound | pyborg.py:494-548 | one pass of the forward loop yields the pieces of the chosen word, or the error the source raises |
| Replying.Prepend | pyborg.py:474-479 | reversing the pieces and inserting each at the front puts them in front in their own order |
| Replying.Append | pyborg.py:546-547 | appending each piece puts them at the end in order |
| Replying.WalkBack | pyborg.py:416-479 | the backward `while done == 0` loop computes the backward walk and the unused draws |
| Replying.WalkForward | pyborg.py:490-548 | the forward `while done == 0` loop computes the forward walk |
| Replying.ContinueWalk | pyborg.py:481-550 | the forward walk from the last two words, replacing them, computes the joined sentence |
| Replying.BothWalks | pyborg.py:416-550 | both walks from the seed compute the generated words |
| Replying.GenerateWords | pyborg.py:380-550 | the token split, the seed loop, the draw and the walks compute the generated words |
| Replying.Unaliased | pyborg.py:553-555 | the in-place alias loop computes the alias strip, failing on an empty word |
| Replying.InterleaveSnoc | pyborg.py:559 | one more word adds one space and the word at the end of the spaced list |
| Replying.Spaced | pyborg.py:559 | the insertions at `1 + 2x` put one " " between each two words |
| Replying.Glued | pyborg.py:564-570 | the in-place punctuation loop computes the glued list, failing where the source indexes past the end |
| Replying.ReplyTo | pyborg.py:376-573 | the imperative `reply` computes the reply text |
| Brain.ContextCount | pyborg.py:628-632 | `known` reports a word's context count exactly when it is a key |
| Brain.Link | pyborg.py:313-320 | the linking loop computes the linked index, adds one word per new distinct token and one context per position |
| Brain.StoreLine | pyborg.py:311-320 | storing a new line and linking it computes the store with the line added |
| Brain.Screen | pyborg.py:265-292 | the filter loop accepts exactly the sentences that are not refused |
| Brain.ClassifyChars | pyborg.py:279-286 | the byte loop counts vowels, letters and digits |
| Brain.LearnInto | pyborg.py:252-325 | the body of `learn_sentence` computes the learned store |
| Brain.RewriteLines | pyborg.py:585-598 | the rewriting loop of `replace_word` computes the rewritten lines and the count |
| Brain.DeleteLines | pyborg.py:346-358 | the first loop of `unlearn_word` deletes exactly the matching lines and collects exactly their words |
| Brain.AddWords | pyborg.py:356-358 | the inner loop adds every word of a deleted line to `wordlist` |
| Brain.Prune | pyborg.py:365-370 | the backward deleting loop keeps the references not into deleted lines and counts the ones dropped |
| Brain.RepairWord | pyborg.py:363-373 | one iteration of the repair loop prunes one word, deletes it when empty, and counts off its dropped references and itself |
| Brain.Repair | pyborg.py:362-373 | the repair loop computes the repaired index, one word fewer per deleted word and one context fewer per dropped reference |
| Brain.AuditLinks | pyborg.py:655-670 | the backward audit loop keeps the good references and counts the broken and the bad |
| Brain.AuditAll | pyborg.py:653-674 | the audit loop over the keys computes the audited index, the lost words and the broken and bad counts |
| Brain.AuditOrder | pyborg.py:653-674 | auditing the words in any iteration order gives the `checkdict` index and counts |
| Brain.CheckStore | pyborg.py:648-677 | the audit loop computes `checkdict` |
| Brain.SelectRare | pyborg.py:711-727 | the collecting loop of `purge` computes the selection |
| Brain.PyborgBrain.constructor | pyborg.py:690-693 | a new brain holds the empty store |
| Brain.PyborgBrain.LearnSentence | pyborg.py:252-325 | `learn_sentence` leaves the fields holding the learned store |
| Brain.PyborgBrain.Learn | pyborg.py:327-333 | `learn` learns the ". "-separated sentences in turn |
| Brain.PyborgBrain.UnlearnWord | pyborg.py:335-374 | `unlearn_word` leaves the fields holding the unlearned store |
| Brain.PyborgBrain.RepairLinks | pyborg.py:362-373 | the repair loop on the fields repairs the index and counts off removed words and references |
| Brain.PyborgBrain.DeleteMatching | pyborg.py:346-358 | the deleting loop on the fields removes exactly the matching lines |
| Brain.PyborgBrain.ReplaceWord | pyborg.py:575-607 | `replace_word` leaves the fields holding the replaced store and returns the outcome |
| Brain.PyborgBrain.Checkdict | pyborg.py:648-677 | `checkdict` leaves the fields holding the audited store and returns the broken and bad counts |
| Brain.PyborgBrain.RebuildDict | pyborg.py:680-699 | `rebuilddict` leaves the fields holding the rebuilt store |
| Brain.PyborgBrain.Purge | pyborg.py:703-745 | `purge` leaves the fields holding the purged store and returns the number of words |
| Brain.PyborgBrain.Reply | pyborg.py:376-573 | `reply` returns the reply text for the store the fields hold |
| Brain.PyborgBrain.Known | pyborg.py:620-634 | `known` reports the totals without arguments, else each lower-cased word with its context count or unknown |

## Left out

- Persistence and start-up are not modelled: `__init__`, `save`, the zip/marshal files, the version file and the alias migration (pyborg.py:122-250).
- `filter_message` and `apply_aliases` are not modelled, because they rewrite with regular expressions. A censored pattern is an abstract full-token test, `Settings.censored`. Alias markers '~' appear only where `reply` strips them.
- `MegahalBrain` is not modelled; it is a foreign library.
- The `Pyborg` front end is not modelled: command dispatch, reply rate, sleeping and output.
- The `limit`, `contexts`, `censor`, `uncensor`, `alias` and `replace` command wrappers are not modelled; they only format messages or forward to a modelled operation.
- Report strings are not produced: timings, the `%.2f` contexts per word of `known_words`, and the "#nick" to "$nick" rewrite of `known`'s message. The operations return the numbers that go into them.
- `print` and logging diagnostics are not modelled, including `print context` at pyborg.py:427.
- Python's `hash` is a function parameter of the brain. Collisions are modelled as the source has them: a colliding sentence only adds weight.
- `struct.pack("lH", ...)` is a pair. The 16-bit limit of the position field is not modelled: a position of 65536 or more, which would make `struct.pack` raise, is kept as an unbounded `nat`.
- Floating-point division is replaced by exact integer arithmetic. The contexts-per-word test is a cross-multiplication with the source's zero-division case. `min_vowel_ratio` is the fraction `vowelRatioNum / vowelRatioDen`.
- Dictionary iteration orders (`words.keys()`, `lines.keys()`) are `order` parameters. `unlearn_word` iterates a set in any order, and its result does not depend on the order.
- In `reply`, the Python 2 iteration order of `pre_words.items()` and `post_words.items()` is replaced by insertion order. Candidates of equal weight therefore come out of the stable sort in first-seen order.
- `liste.sort` is the library sort, modelled by the function `Generation.SortDesc`, not by a loop.
- Randomness is a sequence of draws, with `randint(a, b)` returning `a + d % (b - a + 1)`.
- Brain.PyborgBrain.UnlearnWord: requires every word of a deleted line to be known. Otherwise the source raises KeyError at pyborg.py:364, and that exception is not modelled.
- Brain.PyborgBrain.Purge: requires the same of every unlearning it performs.
- Brain.PyborgBrain.ReplaceWord: requires every pointer of `from` to name an existing line and a position inside it. The KeyError and IndexError at pyborg.py:587-590 are not modelled.
- Brain.PyborgBrain.ReplaceWord: a `to` containing whitespace, or an empty `to`, is stored as one token. The source's re-split of the joined line would turn it into several tokens, or drop it and shift the later positions. The command handlers at pyborg.py:747-753 and 781-788 only pass tokens from `split()`.
- Brain.PyborgBrain.Checkdict: requires every reference into an existing line to name a position of it. The IndexError at pyborg.py:667 is not modelled.
- Brain.PyborgBrain.ReplaceWord: models the corrected index update for `from == to` (see Findings). `Replacing.ReplaceAsWritten` keeps the code as written.
- Brain.PyborgBrain.LearnSentence: a sentence that fails only the vowel test is refused and nothing is signalled. As written, the log call at pyborg.py:291 raises NameError (see Findings); the store is left as the model leaves it. `Learning.LearnSentenceAsWritten` keeps the code as written.
- Brain.PyborgBrain.Learn: a vowel-poor sentence is skipped and the rest of the body is learned. As written, the NameError at pyborg.py:291 ends `learn` and drops the remaining sentences (see Findings). `Learning.LearnAsWritten` keeps the code as written.
- Brain.PyborgBrain.RebuildDict: a vowel-poor line is skipped and the replay goes on. As written, the NameError at pyborg.py:291 ends the replay after the store was emptied, and every line not yet replayed is lost (see Findings). `Maintenance.RebuildAsWritten` keeps the code as written.
- Brain.Screen: a word that fails only the vowel test makes the filter loop refuse the sentence. As written, the source raises NameError there (see Findings).
- Brain.LearnInto: computes the corrected `learn_sentence`, as Brain.PyborgBrain.LearnSentence does.

## Findings

| source | as written | input that shows it | evidently intended | confidence | as-written member | corrected member |
|---|---|---|---|---|---|---|
| pyborg.py:600-606 | `replace_word(old, new)` with `new == old` extends the list of `old` by itself, decrements `num_words` and then deletes `old` | a store with one line "hi" and `words = {"hi": [(0, 0)]}`; `replace_word("hi", "hi")` | replacing a word by itself leaves the index and the counters as they were | high (not executed) | Replacing.ReplaceSelfAsWrittenBreaks | Replacing.ReplaceSelf |
| pyborg.py:290-292 | the refusal of a vowel-poor word logs `num_vowels // len(word)`. No `num_vowels` is bound anywhere, so the log call raises NameError and `learn_sentence` never reaches its `return` | `learn("rhythm. hello")` into an empty store with learning on and `min_vowel_ratio` 0.25: "rhythm" has one vowel in six bytes | the word's sentence is refused, and `learn` goes on to learn "hello" | high (not executed) | Learning.VowelPoorBodyExample | Learning.LearnSkipsRefused |
| pyborg.py:690-699 | `rebuilddict` empties the store and then relearns each old line. The NameError at pyborg.py:291 on a vowel-poor line ends it, and every line not yet replayed is lost | a store holding the lines "rhythm" and then "hello", with learning on and `min_vowel_ratio` 0.25 | a vowel-poor line is skipped and the other lines are learned again | high (not executed) | Maintenance.RebuildAsWrittenLoses | Maintenance.RebuildConsistent |

In the first finding, after the as-written call "hi" is no longer a word although line 0 still holds it. `num_words` and `num_contexts` no longer match the index. The corrected `Replacing.Replace` leaves the index alone when `from == to`. `ReplaceConsistent` proves that it keeps the store invariant for every pair of words.

In the third finding, the vowel test can fail on a line that was learned earlier: the minimum ratio is a setting, and it may have been raised since the line was learned. In the model, `Learning.LearnAsWritten` and `Maintenance.RebuildAsWritten` keep the code as written. `LearnAllAsWrittenAgrees` and `ReplayAsWrittenAgrees` prove that the two versions differ only once a NameError is raised. `LearnSkipsRefused` proves the corrected `learn` skips a refused sentence and learns the rest, and `RebuildConsistent` proves that the corrected rebuild always leaves a consistent store.
