# Crossword word-candidate matching, modelled in Dafny

The backend of this Polish crossword helper answers one question: which dictionary
words have a given length and given letters at given positions? It has two
engines, and both follow the same rules:

- `backend/advanced_app.py` keeps a process-wide cache, `word_cache`. It maps each
  word length to the lowercased words of that length, in file order.
  `load_dictionary` rebuilds the cache from the dictionary file and sets
  `dictionary_loaded`. `search_words` loads first when needed, validates the
  length, lowercases the known letters and filters one bucket. `get_stats`
  reports the bucket sizes and their total.
- `backend/app.py` keeps no cache. For every request, `search_words` validates
  the length and makes one pass over the dictionary file. It returns the parsed
  words of the requested length whose letters match case-insensitively, with the
  casing they have in the file.

A dictionary line yields its word this way. If the line contains a `/`, the word
is the text before the first `/`, not stripped. Otherwise it is the whole line
with Python `str.strip()` whitespace removed from both ends.

## How it is modelled

- `DictionaryFile` (`dictionary_file.dfy`) holds what both engines share:
  - the dictionary file as a value. `Readable(lines)` has every line, newline
    included, as Python's file iteration yields it. `Unreadable(linesBeforeError,
    reason)` is a file whose read raised an exception after some lines had been
    processed.
  - case folding (`Lower`, `LowerWord`), `str.strip()` (`Strip`), `str.find`
    (`FirstIndex`) and the line parser `ParseEntry`.
  - reference sequences: `Words` (the non-empty parsed words in file order),
    `OfLength` and `LowerAll`.
- `Requests` (`requests.dfy`) holds the request and response datatypes, the
  length validation and the `{position: letter}` comprehension (`LetterMap`).
- `CachedSearch` (`cached_search.dfy`) models `advanced_app.py`.
  - Class `CachedDictionary` has the two globals as fields. Its methods
    `LoadDictionary`, `SearchWords` and `GetStats` update them as the source does.
  - `Index` is the cache a load builds from a list of lines. `MatchAll` is the
    bucket filter. `StatsOf` is `get_stats`' report.
  - `FilterCandidates` is the filter loop, with its early exit.
- `FileSearch` (`file_search.dfy`) models `app.py`. `SearchWords` is the pass
  over the lines, proved against the function `Scan`. `CheckLetters` is its
  inner constraint loop, proved against the predicate `FoldedMatches`.
- `EngineAgreement` (`engine_agreement.dfy`) relates the two engines. On the same
  lines, the cached results are the uncached results with each word lowercased.
  This holds for every constraint letter, not only lowercase ones, because both
  engines compare lowercased characters.

`Lower` has a concrete definition. It is the Unicode lower-casing of the Latin-1
and Latin Extended-A letters, which include every letter ISO-8859-2 decodes to.
It also covers the three characters outside those blocks whose lower case lies
inside them: U+1E9E, U+212A and U+212B. Only the example lemmas
`ExamplePolishCapitals` and `ExampleKelvinSign` use that definition. Every other
lemma holds for any case folding that maps one character to one character.

Two behaviours of the code are worth stating:

- A failed load keeps the buckets built before the exception and clears the
  flag, because the cache is reset before the `try`
  (`backend/advanced_app.py:24-54`).
- A line without `/` is stripped on both sides by `str.strip()`
  (`backend/advanced_app.py:34`).

## Model

| member | source | states |
|---|---|---|
| `DictionaryFile.Lower` | backend/app.py:38 | one character's `str.lower()`: A-Z and the Latin-1 capitals move up 32, Latin Extended-A capitals move to their neighbour, U+0178, U+1E9E, U+212A and U+212B map to their lower case, and everything else is unchanged |
| `DictionaryFile.ExamplePolishCapitals` | backend/advanced_app.py:45 | the nine Polish capitals fold to their lower-case letters |
| `DictionaryFile.IsSpace` | backend/advanced_app.py:34 | the characters `str.isspace()` accepts: the control characters tab to carriage return and U+001C to U+001F, space, U+0085, U+00A0, U+1680, U+2000 to U+200A, U+2028, U+2029, U+202F, U+205F and U+3000 |
| `DictionaryFile.LowerWord` | backend/advanced_app.py:45 | the lowercased word has the same length, and each character is the case folding of the character at the same position |
| `DictionaryFile.TrimLeft` | backend/advanced_app.py:34 | the result is a suffix of the line, everything dropped is whitespace, and the result does not start with whitespace |
| `DictionaryFile.TrimRight` | backend/advanced_app.py:34 | the result is a prefix of the line, everything dropped is whitespace, and the result does not end with whitespace |
| `DictionaryFile.Strip` | backend/advanced_app.py:34 | `str.strip()`: the result is an infix of the line with only whitespace on either side of it, and it neither starts nor ends with whitespace |
| `DictionaryFile.FirstIndex` | backend/advanced_app.py:30 | `str.find`: -1 exactly when the character is absent; otherwise the index of an occurrence with none before it |
| `DictionaryFile.ParseEntry` | backend/advanced_app.py:30-34 | with a `/`, the word is exactly the line's prefix before the first `/`; without one, it is the stripped line; a word never contains `/` |
| `DictionaryFile.ExampleAffixEntry` | backend/advanced_app.py:30-32 | the entry `kot/affix1` followed by a newline parses to `kot` |
| `DictionaryFile.ExamplePlainEntry` | backend/app.py:31-32 | the entry `pies` followed by a newline parses to `pies`, with the newline stripped |
| `DictionaryFile.Words` | backend/advanced_app.py:28-38 | the parsed words that are kept contain no empty word, and there are at most as many as lines |
| `DictionaryFile.OfLength` | backend/advanced_app.py:41-43 | every selected word has the requested length and comes from the input |
| `DictionaryFile.LowerAll` | backend/advanced_app.py:45 | the result has the input's length, and position i holds the lowercased word i |
| `Requests.ValidLength` | backend/advanced_app.py:70 | a length both engines accept: present and positive; a missing, zero or negative length fails the test here and at `backend/app.py:17` |
| `Requests.LetterMap` | backend/advanced_app.py:74 | the keys are exactly the positions that occur; each position maps to the letter of its last occurrence (a later entry overrides an earlier one) |
| `Requests.LowerItems` | backend/advanced_app.py:74 | the `item['letter'].lower()` of each item: same length, same positions, every letter lowercased |
| `Requests.LowerLetters` | backend/app.py:38 | the constraint map with its positions unchanged and every letter lowercased, the form the cached engine's letters take |
| `Requests.LoweredItemsGiveLoweredMap` | backend/advanced_app.py:74 | building the map from lowered items, as the comprehension does, gives the last-wins map of the raw items with its letters lowered afterwards |
| `CachedSearch.Candidates` | backend/advanced_app.py:77 | the bucket for the requested length, or no words when there is no bucket for it |
| `CachedSearch.AddWord` | backend/advanced_app.py:41-45 | one step of the load loop: the lowered word is appended to the bucket of its length, which is created empty when missing; other buckets are unchanged |
| `CachedSearch.Index` | backend/advanced_app.py:24-45 | the cache a load builds: start empty, skip each empty parsed word, and add every other word in file order |
| `CachedSearch.IndexGroupsWordsByLength` | backend/advanced_app.py:24-45 | a load from empty gives a bucket for a length exactly when some parsed word has it; the bucket is the lowercased words of that length in file order, duplicates kept; a missing length gives `[]` |
| `CachedSearch.BucketWordsAreLoweredWordsOfTheirLength` | backend/advanced_app.py:37-45 | every key is positive; every stored word has exactly its bucket's length, so none is empty, and is the lowercased i-th parsed word of that length |
| `CachedSearch.Matches` | backend/advanced_app.py:83-86 | a word passes the filter when every constraint position lies inside it and holds exactly the constraint's letter |
| `CachedSearch.MatchAll` | backend/advanced_app.py:77-89 | the results are bucket words, no more of them than candidates, and each one has every constraint position inside it holding the required letter |
| `CachedSearch.MatchAllKeepsEveryMatch` | backend/advanced_app.py:81-89 | no candidate that meets every constraint is dropped |
| `CachedSearch.MatchAllKeepsEveryOccurrence` | backend/advanced_app.py:81-89 | each matching candidate occurs in the results exactly as often as in the bucket, and a non-matching one never does; with the subsequence lemma this fixes the results, duplicates included |
| `CachedSearch.MatchAllIsSubsequence` | backend/advanced_app.py:80-89 | the results keep the bucket's order: they are a subsequence of it |
| `CachedSearch.MatchAllWithoutLettersKeepsAll` | backend/advanced_app.py:83-89 | with no known letters the whole bucket is returned |
| `CachedSearch.OutOfRangeLetterRejectsAll` | backend/advanced_app.py:84 | a known letter at a position at or past the bucket's length rejects every word |
| `CachedSearch.CachedAnswer` | backend/advanced_app.py:69-91 | the answer on a loaded cache: 400 for an invalid length, otherwise the bucket of that length filtered by the map of lowered letters |
| `CachedSearch.FilterCandidates` | backend/advanced_app.py:80-89 | the nested loop with the `match` flag and `break` returns exactly `MatchAll` of the candidates |
| `CachedSearch.Sum` | backend/advanced_app.py:107 | the total of the per-length counts, summed key by key from the smallest |
| `CachedSearch.CountsByLength` | backend/advanced_app.py:108 | one count per bucket, equal to the bucket's size |
| `CachedSearch.StatsOf` | backend/advanced_app.py:105-109 | `dictionaryLoaded` is the flag, there is one `wordsByLength` key per bucket holding its size, and `totalWords` is the sum of those counts |
| `CachedSearch.StatsCountEveryWord` | backend/advanced_app.py:41-49 | after a load from lines, `totalWords` is the number of non-empty parsed words, and each per-length count is the number of parsed words of that length |
| `CachedSearch.CachedDictionary.constructor` | backend/advanced_app.py:12-13 | the process starts with an empty cache and the flag cleared |
| `CachedSearch.CachedDictionary.LoadDictionary` | backend/advanced_app.py:15-54 | the new cache is `Index` of the lines read, a function of the lines alone, so loading the same lines twice gives identical buckets; the flag is set exactly when the file was read to the end |
| `CachedSearch.CachedDictionary.SearchWords` | backend/advanced_app.py:56-91 | an unloaded dictionary is loaded first, and a failed load answers 500; then a missing or non-positive length answers 400; otherwise the result is the filtered bucket; a loaded cache is left unchanged |
| `CachedSearch.CachedDictionary.GetStats` | backend/advanced_app.py:97-111 | loads when not loaded, then reports `StatsOf` the cache and flag as they are, even after a failed load |
| `FileSearch.FoldedMatches` | backend/app.py:37-40 | a word passes the uncached filter when every constraint position lies inside it and its character there equals the letter once both are lowercased |
| `FileSearch.FileAnswer` | backend/app.py:17-49 | the uncached response: 400 for an invalid length before the file is read, 500 with the exception's text when the read fails, otherwise the scan with the raw last-wins letter map |
| `FileSearch.Scan` | backend/app.py:24-43 | every result has exactly the requested length and matches every known letter case-insensitively, with positions inside the word; there are at most as many results as lines |
| `FileSearch.CheckLetters` | backend/app.py:36-41 | the constraint loop with early `break` answers true exactly when every position is inside the word and holds the letter once both are lowercased |
| `FileSearch.SearchWords` | backend/app.py:10-49 | a missing or non-positive length answers 400 before the file is read; a read failure answers 500 with the exception's text; otherwise the result is `Scan` of the lines with the last-wins letter map |
| `FileSearch.ScanIsSubsequenceOfWords` | backend/app.py:24-43 | the results are a subsequence of the parsed words: file order, and the casing the file has |
| `FileSearch.ScanKeepsEveryMatch` | backend/app.py:35-43 | no parsed word of the requested length that matches is dropped |
| `FileSearch.ScanKeepsEveryOccurrence` | backend/app.py:24-43 | a word of the requested length that matches occurs in the results exactly as often as among the parsed words, and any other word never does; with the subsequence lemma this fixes the results, duplicates included |
| `FileSearch.ScanWithoutLettersKeepsLength` | backend/app.py:35-43 | with no known letters exactly the parsed words of the requested length are returned, in order, duplicates kept |
| `FileSearch.OutOfRangeLetterFindsNothing` | backend/app.py:37-40 | a known letter at a position at or past the requested length makes the result empty |
| `EngineAgreement.LoweredMatchIsFoldedMatch` | backend/app.py:38 | a lowercased word matches lowercased letters exactly when the word matches the letters case-insensitively |
| `EngineAgreement.FilteredBucketIsLoweredScan` | backend/advanced_app.py:77-89 | on the same lines, the filtered cached bucket equals the uncached results with each word lowercased |
| `EngineAgreement.SearchEnginesAgree` | backend/app.py:17-45 | for a loaded cache and readable lines, both engines give the same 400 for an invalid length; otherwise the cached results are the uncached results lowercased |
| `EngineAgreement.ExampleKelvinSign` | backend/app.py:38 | a Kelvin sign as the known letter at position 0 matches `kot` in both engines, since it lowers to `k` |
| `EngineAgreement.FirstSearchesAgree` | backend/advanced_app.py:56-91 | a freshly started cached engine and the uncached engine answer the same request on the same dictionary consistently: the same 400, or results that differ only by lowercasing |

## Left out

- Flask plumbing is not modelled: routing, `request.json`, `jsonify`, CORS, the JWT setup and the `__main__` blocks. The startup call to `load_dictionary` is a `LoadDictionary` call a caller may make after the constructor.
- Malformed requests that make the source raise are not modelled: a missing body, a non-numeric `wordLength`, or an entry without `position` or `letter`. The source answers those through its generic `except` branch with status 500. The request datatype admits only well-formed bodies.
- `wordLength` is an integer. JSON floats and booleans, which Python would compare and hash as numbers, are not modelled.
- Opening the file and decoding ISO-8859-2 are I/O. The file is a `DictFile` value, and when a read fails, the exception's text is the abstract `reason`.
- Timing and `print` output in `load_dictionary` are left out. They read a clock and write to the console.
- Positions are `nat`. Negative positions are not modelled. Only `pos >= len(word)` is guarded, so in Python a position from `-len(word)` to -1 indexes from the end of the word. A position below `-len(word)` makes `word[pos]` raise IndexError, which the generic `except` answers with 500. Whether that happens can depend on the dictionary's iteration order, because an earlier constraint may `break` first.
- A known letter is one `char`. A `letter` that is not exactly one character is not modelled: an empty or a longer string never equals one character, so both engines reject every word when one is given.
- Lower: request letters outside Latin-1 and Latin Extended-A are left unchanged, except U+1E9E, U+212A and U+212B. Python lowers every other such character to characters outside those blocks, so none of them can equal a lowered ISO-8859-2 letter. Python lowers U+0130 to two characters; the model leaves it unchanged, and it matches no word in either form.
- The constraint loops take the positions in an arbitrary order, not in the dictionary's insertion order. The result does not depend on the order.
- Concurrency and atomic publishing of the cache are left out. The source has none.
- `backend/db.py` is database setup. `frontend/src/App.js` and `frontend/src/EmailVerification.js` are UI and network code. None of them is part of this model.
