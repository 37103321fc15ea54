# keyfinder in Dafny

This project models the music-theory core of `keyfinder` and proves properties of that model. The core has two parts.

- **The key catalogue (`src/keys.rs`).**
  - `init` appends candidate keys to a caller's vector in four passes: major with sharps, major with flats, minor with sharps, and minor with flats.
  - Each pass walks twelve positions of a 24-entry tonic table. It skips tonics on the reject list of its mode.
  - For every tonic it keeps, it builds the seven diatonic chords by stepping through the table with the interval pattern.
  - Finally `init` sorts the vector by the derived order (tonic, then chord list) and drops every key whose tonic equals that of the key kept before it.
- **Progression matching (`src/keyfinder.rs`).**
  - `get_user_chords` splits the user's text on whitespace and rewrites each token with thirteen `str::replace` steps, in a fixed order.
  - `is_chord_in_key` checks that all chords of a progression occur in a key.
  - `find_keys` fails on empty input. Otherwise it keeps, in order, the keys that cover the progression, and fails when none do.

Files:

- `order.dfy` (module `Order`): Rust's `Ord` on strings and on vectors of strings. These are the two orders the derived `Ord` of `Key` compares with.
- `keys.dfy` (module `Keys`): the tables, the scale construction, the reject filter and the sorting and deduplication.
  - The caller's `Vec<Key>` is the class `KeyVec`, whose methods reassign its `elems`.
  - `GenerateMajorKeys`, `GenerateMinorKeys` and `IsNotOnTheCircleOfFifths` keep the source's loops; `RemoveDuplicateKeys` and `Init` keep its calls.
  - Each of these is proved against a function on sequences: `Generated`, `IsAccidental`, `SortKeys`, `Dedup` and `Catalog`.
  - `LeastPerTonic` characterises `Catalog`. The catalogue holds, in increasing tonic order, the least key of each tonic present, and nothing else. `LeastPerTonicUnique` shows that this determines the list.
- `catalog.dfy` (module `FreshCatalog`): concrete facts about the catalogue built from an empty vector.
  - It has thirty keys, with exactly the circle-of-fifths tonics.
  - The keys at positions 0, 6, 9 and 29 carry the chords the Rust tests expect.
- `text.dfy` (module `Text`): `str::split_whitespace` and `str::replace`.
  - `replace` is modelled exactly: it scans left to right, replaces non-overlapping occurrences in a single pass, and treats the empty pattern as Rust does.
- `keyfinder.dfy` (module `KeyFinder`): `KeyError`, `find_keys`, `is_chord_in_key` and `get_user_chords`.

Keys of the same tonic from the sharp and flat passes usually carry different chords, so the sort order, not the tonic alone, decides which one survives:
- A major is `[A, Bm, C#m, …]` from the sharp table but `[A, Cbm, Dbm, …]` from the flat table.
- G minor is `[Gm, Am, A#, …]` against `[Gm, Am, Bb, …]`.

`FreshCatalog.Winner` and the `TieOf…` lemmas state which spelling survives.

The two glyph literals of `src/keyfinder.rs:111` and `:116` appear mis-decoded in the source text. They are single characters, and the model reads them as U+0394 (Δ) and U+00F8 (ø).

## Model

| member | source | states |
|---|---|---|
| Order.StrLtIrreflexive | src/keys.rs:1-5 | no tonic string is below itself in Rust's string order |
| Order.StrLtTransitive | src/keys.rs:1-5 | the string order is transitive |
| Order.StrLtTotal | src/keys.rs:1-5 | of two different strings, one is below the other |
| Order.StrLtAsymmetric | src/keys.rs:1-5 | two strings are never each below the other |
| Order.ListLtIrreflexive | src/keys.rs:1-5 | no chord list is below itself in the lexicographic vector order |
| Order.ListLtTransitive | src/keys.rs:1-5 | the vector order is transitive |
| Order.ListLtTotal | src/keys.rs:1-5 | of two different chord lists, one is below the other |
| Order.ListLtAt | src/keys.rs:1-5 | lists that agree up to position k and differ there compare as their k-th entries do |
| Order.IncreasingFromNeighbours | src/keys.rs:45-48 | if every neighbouring pair is strictly ordered, the whole sequence is strictly increasing |
| Order.IncreasingUnique | src/keys.rs:45-48 | two strictly increasing sequences with the same elements are equal |
| Keys.KeyLeTransitive | src/keys.rs:1-5 | the derived order on `Key` (tonic, then chords) is transitive |
| Keys.KeyLeTotal | src/keys.rs:1-5 | any two keys are comparable |
| Keys.KeyLeAntisymmetric | src/keys.rs:1-5 | keys that are each at most the other are equal |
| Keys.Table | src/keys.rs:14-32 | each of the four tonic tables has 24 entries |
| Keys.OffsetBound | src/keys.rs:34-35 | the interval prefix sum up to degree j ≤ 6 is at most 11 (major) or 10 (minor), and it strictly increases with j |
| Keys.ChordAtIndex | src/keys.rs:53-84 | degree j of the key at position i reads the table at i + prefix sum, which is below 24; the chord is that entry, with `m` appended (major) or popped (minor) on the flipped degrees |
| Keys.Pop | src/keys.rs:119 | `String::pop` drops the last character and leaves an empty string empty |
| Keys.Scale | src/keys.rs:68-84 | every generated scale has seven chords |
| Keys.TableShapes | src/keys.rs:14-32 | major table entries do not end in `m`; minor entries end in `m` and lose it when popped |
| Keys.ScaleStartsOnTonic | src/keys.rs:68-81 | the first chord of every scale is the tonic itself |
| Keys.ScaleQuality | src/keys.rs:77-120 | degree j carries a minor chord (major generator, lines 77-79) iff j ∈ {1,2,5,6} in a major key and (minor generator, lines 118-120) iff j ∉ {2,5,6} in a minor key |
| Keys.GeneratedStep | src/keys.rs:53-88 | iteration n of a pass appends its own key, if any, after what the first n iterations appended |
| Keys.GeneratedMembers | src/keys.rs:53-88 | a key is emitted by the first n iterations iff some position i < n has an unrejected tonic and builds that key |
| Keys.CandidateMembers | src/keys.rs:37-41 | a key is among the four passes' output iff some pass and position emits it |
| Keys.CandidateShape | src/keys.rs:68-127 | every candidate of either generator (lines 68-86 and 109-127) has seven chords, starting with its tonic, and its tonic passed the filter |
| Keys.Insert | src/keys.rs:46 | inserting into a sorted list keeps it sorted and adds exactly the new key |
| Keys.SortKeys | src/keys.rs:46 | `Vec::sort` yields a sorted permutation of its input |
| Keys.SortedUnique | src/keys.rs:46 | sorted permutations of the same keys are equal, so any sort algorithm gives `SortKeys` |
| Keys.DedupLeast | src/keys.rs:47 | `dedup_by` on tonic, applied to a sorted list, keeps exactly the least key of each tonic, in increasing tonic order |
| Keys.SortDedupLeast | src/keys.rs:45-48 | sorting and then deduplicating keeps the least key of each tonic present and nothing else |
| Keys.CatalogIsLeastPerTonic | src/keys.rs:37-48 | `init`'s result is the least key per tonic over the vector's old contents plus the generated candidates |
| Keys.LeastPerTonicUnique | src/keys.rs:45-48 | that characterisation determines the list |
| Keys.CatalogEntryForTonic | src/keys.rs:46-47 | every tonic present survives, and its survivor is no greater than any key with that tonic |
| Keys.IncreasingSorted | src/keys.rs:45-48 | strictly increasing tonics make a list sorted in the derived order |
| Keys.CatalogSorted | src/keys.rs:45-48 | after `init` the vector is sorted and its tonics strictly increase, so no two keys share a tonic |
| Keys.CatalogShape | src/keys.rs:37-43 | every key `init` generated has seven chords, the first being its tonic |
| Keys.KeyVec.constructor | src/keys.rs:168 | a new vector is empty |
| Keys.KeyVec.Push | src/keys.rs:86 | `push` appends one key |
| Keys.KeyVec.Sort | src/keys.rs:46 | `sort` leaves `SortKeys` of the old contents, a sorted permutation of them |
| Keys.KeyVec.DedupByTonic | src/keys.rs:47 | `dedup_by` on tonic leaves `Dedup` of the old contents |
| Keys.IsNotOnTheCircleOfFifths | src/keys.rs:132-159 | true iff the tonic is on the reject list of its mode |
| Keys.GenerateMajorKeys | src/keys.rs:50-89 | appends exactly the keys of the twelve major positions whose tonic is not rejected, in position order, each with the scale of the interval walk |
| Keys.GenerateMinorKeys | src/keys.rs:91-130 | the same for the minor tables, popping `m` on degrees 2, 5 and 6 |
| Keys.RemoveDuplicateKeys | src/keys.rs:45-48 | the vector becomes `Dedup` of its sorted old contents |
| Keys.Init | src/keys.rs:37-43 | the vector becomes `Catalog` of its old contents: four passes appended, then sorted and deduplicated |
| FreshCatalog.TonicsIncreasing | src/keys.rs:45-48 | the thirty circle-of-fifths tonics, as listed, are strictly increasing |
| FreshCatalog.PassTonicsListed | src/keys.rs:53-66 | every unrejected tonic of any pass is one of the thirty |
| FreshCatalog.TonicGenerated | src/keys.rs:37-41 | each of the thirty tonics is generated by some pass |
| FreshCatalog.FreshTonics | src/keys.rs:37-48 | from an empty vector, the catalogue's tonics are exactly the thirty, in sorted order |
| FreshCatalog.FreshSize | src/keys.rs:167-173 | from an empty vector, `init` yields thirty keys |
| FreshCatalog.FreshTonicPresence | src/keys.rs:176-196 | `Cb`, `Gm` and `Bbm` are present; `Fb`, `G#`, `Cbm` and `E#m` are absent |
| FreshCatalog.FreshAvoidsRejects | src/keys.rs:132-159 | no key of the fresh catalogue has a tonic on either reject list |
| FreshCatalog.FreshShape | src/keys.rs:68-86 | every key of the fresh catalogue has seven chords, the first its tonic |
| FreshCatalog.FreshEntry | src/keys.rs:45-48 | position n of the fresh catalogue holds the n-th tonic, is generated by some pass, and is no greater than any candidate with that tonic |
| FreshCatalog.Winner | src/keys.rs:46-47 | when only positions w and l generate a tonic and w's scale sorts no later than l's, a generated key that is least among the candidates of that tonic carries w's scale |
| FreshCatalog.RivalOfA | src/keys.rs:19-22 | the flat table builds A major as `[A, Cbm, Dbm, D, Fb, Gbm, Abm]` |
| FreshCatalog.TieOfA | src/keys.rs:46-47 | the sharp spelling of A major sorts before the flat one |
| FreshCatalog.TieOfC | src/keys.rs:46-47 | the sharp spelling of C major sorts before the flat one (`Em` before `Fbm`) |
| FreshCatalog.RivalOfGm | src/keys.rs:29-31 | the flat table builds G minor as `[Gm, Am, Bb, Cm, Dm, Eb, F]` |
| FreshCatalog.TieOfGm | src/keys.rs:46-47 | the sharp spelling of G minor (`A#`) sorts before the flat one (`Bb`) |
| FreshCatalog.FreshKey0 | src/keys.rs:204 | key 0 of the fresh catalogue has chords `[A, Bm, C#m, D, E, F#m, G#m]` |
| FreshCatalog.FreshKey6 | src/keys.rs:205 | key 6 has chords `[Bb, Cm, Dm, Eb, F, Gm, Am]` |
| FreshCatalog.FreshKey9 | src/keys.rs:206 | key 9 has chords `[C, Dm, Em, F, G, Am, Bm]` |
| FreshCatalog.FreshKey29 | src/keys.rs:207 | key 29 has chords `[Gm, Am, A#, Cm, Dm, D#, F]` |
| Text.LeadingWord | src/keyfinder.rs:107-108 | the first token is the longest whitespace-free prefix |
| Text.SplitWhitespace | src/keyfinder.rs:107-108 | every token is non-empty and holds no whitespace |
| Text.SplitKeepsText | src/keyfinder.rs:107-108 | concatenating the tokens gives back every non-whitespace character, in order |
| Text.SplitJoin | src/keyfinder.rs:107-108 | tokens joined by single spaces split back into the same tokens |
| Text.ReplaceAbsent | src/keyfinder.rs:110-122 | `replace` with a pattern that does not occur changes nothing |
| Text.NotOccurring | src/keyfinder.rs:110-122 | a pattern with a character the text lacks, or longer than the text, does not occur |
| Text.ReplaceChars | src/keyfinder.rs:110-122 | every output character of `replace` comes from the input or from the replacement |
| Text.ReplaceRemoves | src/keyfinder.rs:111-122 | replacing one character by text without it removes it everywhere |
| Text.DeleteShortens | src/keyfinder.rs:110-121 | deleting a pattern never lengthens the text |
| Text.ReplaceSinglePass | src/keyfinder.rs:110 | `replace` makes one pass: `"mmaj7aj7"` loses one `maj7` and keeps the `maj7` the deletion forms |
| KeyFinder.IsChordInKey | src/keyfinder.rs:61-68 | true iff every chord of the progression occurs in the key's chords, hence true for an empty progression |
| KeyFinder.CoversBySets | src/keyfinder.rs:61-68 | only which chords occur matters, not their order or duplicates |
| KeyFinder.CoverExamples | src/keyfinder.rs:75-97 | `[C, Dm, F]` is in C major's chords and not in `[C, Fm]`; the `should_be_ok` data matches its one key |
| KeyFinder.Matching | src/keyfinder.rs:19-24 | the kept keys are never more than the data |
| KeyFinder.MatchingMembers | src/keyfinder.rs:19-24 | a key is kept iff it is in the data and covers the progression |
| KeyFinder.MatchingAppend | src/keyfinder.rs:19-24 | filtering distributes over concatenation, so kept keys keep their relative order |
| KeyFinder.MatchingEmpty | src/keyfinder.rs:26-28 | nothing is kept iff no key covers the progression |
| KeyFinder.FindKeys | src/keyfinder.rs:9-31 | an empty progression gives `EmptyInputError` whatever the data; `NotFound` iff the progression is non-empty and no key covers it; `Ok` holds exactly the covering keys in data order and is never empty |
| KeyFinder.GetUserChords | src/keyfinder.rs:106-125 | one chord per whitespace-separated token, none dropped |
| KeyFinder.ApplyEach | src/keyfinder.rs:107-123 | the rewrites yield one string per token |
| KeyFinder.ApplyStepsAppend | src/keyfinder.rs:110-122 | running a list of steps equals running its first part, then the rest |
| KeyFinder.StepsKeepAbsent | src/keyfinder.rs:110-122 | steps whose replacements lack a character cannot bring it back |
| KeyFinder.ReplacementsOmit | src/keyfinder.rs:110-122 | every replacement text except that of the last step is empty, and that one is `m` |
| KeyFinder.RemovedAt | src/keyfinder.rs:111-122 | a one-character pattern other than `m` is absent from every simplified token |
| KeyFinder.SimplifyStrips | src/keyfinder.rs:111-122 | no simplified token contains `7`, `6`, `9`, `+`, `o`, `-`, Δ or ø |
| KeyFinder.UserChordsStripped | src/keyfinder.rs:106-125 | no chord `get_user_chords` returns contains any of those characters |
| KeyFinder.StepsMissed | src/keyfinder.rs:110-122 | steps none of whose patterns occur leave the token unchanged |
| KeyFinder.BareOmits | src/keyfinder.rs:110-122 | no pattern occurs in a bare symbol (letter A–G, optional `#` or `b`, optional `m`) |
| KeyFinder.SimplifyBare | src/keyfinder.rs:110-122 | a bare symbol comes back unchanged |
| KeyFinder.UserChordsOfBare | src/keyfinder.rs:106-125 | bare symbols typed with spaces between them come back as they are, so normalising bare symbols is a no-op |
| KeyFinder.RunThrough | src/keyfinder.rs:110-122 | if only step k finds its pattern, before and after it, the token ends up as step k makes it |
| KeyFinder.SimplifyCmaj7 | src/keyfinder.rs:110 | `Cmaj7` simplifies to `C` |
| KeyFinder.SimplifySeventh | src/keyfinder.rs:112 | a bare symbol followed by `7` simplifies to the bare symbol |
| KeyFinder.DocumentationExample | src/keyfinder.rs:104-105 | `"Cmaj7 Dm F G7"` gives `[C, Dm, F, G]` |
| KeyFinder.SimplifyMinorSeventh | src/keyfinder.rs:110-122 | `C-7` simplifies to `Cm`: the `7` goes first and `-` becomes `m` last |
| KeyFinder.SimplifyLoneSeventh | src/keyfinder.rs:112 | a lone `7` simplifies to the empty string |
| KeyFinder.EmptyChordKept | src/keyfinder.rs:107-123 | `"C 7"` gives `[C, ""]`: a token that becomes empty is still returned |
| KeyFinder.SimplifyNotIdempotent | src/keyfinder.rs:120-121 | on arbitrary text simplifying twice differs from once: `1133` gives `13`, which gives the empty string |

## Left out

- `src/app.rs` and `src/main.rs` (the egui panel, the persisted UI state, formatting of result messages and the window start-up) are not part of this model. They are presentation code that calls `init`, `get_user_chords` and `find_keys`.
- Lifetimes: `Key` owns its tonic as a string; the borrow of `&'a str` is irrelevant to behaviour.
- Strings are sequences of characters, not UTF-8 bytes. Comparing UTF-8 bytes orders strings as comparing code points does, so the derived order is unaffected.
- `Vec::sort` and `Vec::dedup_by` run in place in the source. Here they are reassignments of `KeyVec.elems` to `SortKeys` and `Dedup` of the old contents. The sorting algorithm itself is not modelled; `Keys.SortedUnique` shows that any sort gives the same result.
- `KeyVec` is the only mutable state. Aliasing of the vector, and the move of `key_data` into `find_keys`, are not modelled; `find_keys` takes its data as a value.
- `get_user_chords` takes `&mut str` but never mutates it; the model takes a plain string.
- `split_whitespace` is modelled with the Unicode `White_Space` list as a fixed predicate (tab through carriage return, space, U+0085, U+00A0, U+1680, U+2000–U+200A, U+2028, U+2029, U+202F, U+205F, U+3000).
- The fresh catalogue: the full sorted list of thirty keys is not written out. It is characterised by `Keys.LeastPerTonic`, its tonics are given exactly (`FreshCatalog.FreshTonics`), and its chords are proved only at the four positions the Rust tests inspect.
- `Keys.Init` with a non-empty vector: only the general characterisation holds (`Keys.CatalogIsLeastPerTonic`, `Keys.CatalogEntryForTonic`). The thirty-key facts are proved only from an empty vector.
- KeyFinder.CoverExamples: the `should_be_ok` test of `find_keys` is stated about `Matching`. A lemma cannot call the method; the method's postcondition links `Ok` results to `Matching`.
- KeyFinder.GetUserChords states only the token count in its own contract. What each chord is follows from the lemmas about `Simplify` listed above.
- Idempotence of `get_user_chords` is claimed only for bare symbols (`KeyFinder.UserChordsOfBare`); `KeyFinder.SimplifyNotIdempotent` shows it fails in general.
