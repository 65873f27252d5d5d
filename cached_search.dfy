/** The cached engine of backend/advanced_app.py: a length-keyed cache of lowercased
    dictionary words, rebuilt from scratch by each load, a search that filters one
    bucket by the known letters, and statistics over the cache. */
module CachedSearch {
  import opened DictionaryFile
  import opened Requests

  const LoadFailedMessage: string := "Failed to load dictionary"

  /** The bucket of the given length, or no words when the cache has no bucket
      for it. */
  function Candidates(cache: map<int, seq<string>>, length: int): seq<string> {
    if length in cache then cache[length] else []
  }

  /** One step of the load loop: the lowercased word goes to the end of the bucket
      keyed by its length, which is created when missing. */
  function AddWord(cache: map<int, seq<string>>, word: string): map<int, seq<string>> {
    cache[|word| := Candidates(cache, |word|) + [LowerWord(word)]]
  }

  /** The cache a load builds from an empty cache and the given lines: empty
      parsed words are skipped, every other one is added in file order. */
  function Index(lines: seq<string>): map<int, seq<string>>
    decreases |lines|
  {
    if lines == [] then map[]
    else
      var word := ParseEntry(lines[|lines| - 1]);
      var cache := Index(lines[..|lines| - 1]);
      if word == [] then cache else AddWord(cache, word)
  }

  /** The load loop's step: the cache of one more line. */
  lemma IndexStep(lines: seq<string>, i: nat)
    requires i < |lines|
    ensures Index(lines[..i + 1]) ==
      if ParseEntry(lines[i]) == [] then Index(lines[..i]) else AddWord(Index(lines[..i]), ParseEntry(lines[i]))
  {
    assert lines[..i + 1][..i] == lines[..i];
  }

  /** Bucket length is exactly the lowercased words of that length among the
      non-empty parsed words, in file order with duplicates; a length has a bucket
      exactly when some word has that length. */
  lemma {:induction false} IndexGroupsWordsByLength(lines: seq<string>)
    ensures forall length :: length in Index(lines) <==> OfLength(Words(lines), length) != []
    ensures forall length :: Candidates(Index(lines), length) == LowerAll(OfLength(Words(lines), length))
    decreases |lines|
  {
    if lines != [] {
      var init := lines[..|lines| - 1];
      var word := ParseEntry(lines[|lines| - 1]);
      IndexGroupsWordsByLength(init);
      if word != [] {
        var ws := Words(init);
        assert Words(lines) == ws + [word];
        assert (ws + [word])[..|ws|] == ws;
        forall length ensures Candidates(Index(lines), length) == LowerAll(OfLength(Words(lines), length)) {
          var of := OfLength(ws, length);
          if |word| == length {
            assert OfLength(Words(lines), length) == of + [word];
            assert (of + [word])[..|of|] == of;
          } else {
            assert OfLength(Words(lines), length) == of;
          }
        }
        forall length ensures length in Index(lines) <==> OfLength(Words(lines), length) != [] {
          if |word| == length {
            assert OfLength(Words(lines), length) == OfLength(ws, length) + [word];
          } else {
            assert OfLength(Words(lines), length) == OfLength(ws, length);
          }
        }
      } else {
        assert Words(lines) == Words(init);
      }
    }
  }

  /** Every word stored in bucket length has that length (so none is empty and
      every key is positive) and is the lowercased form of the i-th parsed word of
      that length. */
  lemma BucketWordsAreLoweredWordsOfTheirLength(lines: seq<string>, length: int, i: nat)
    requires length in Index(lines) && i < |Index(lines)[length]|
    ensures length > 0
    ensures |Index(lines)[length][i]| == length
    ensures |Index(lines)[length]| == |OfLength(Words(lines), length)|
    ensures Index(lines)[length][i] == LowerWord(OfLength(Words(lines), length)[i])
  {
    IndexGroupsWordsByLength(lines);
    var words := OfLength(Words(lines), length);
    assert Index(lines)[length] == Candidates(Index(lines), length) == LowerAll(words);
    assert words[i] in Words(lines);
  }

  /** The words of a bucket that meet every constraint: the position lies inside
      the word and holds the required letter. */
  predicate Matches(word: string, letters: map<nat, char>) {
    forall pos :: pos in letters ==> pos < |word| && word[pos] == letters[pos]
  }

  /** The candidates that match, in order, duplicates kept. */
  function MatchAll(candidates: seq<string>, letters: map<nat, char>): (results: seq<string>)
    ensures |results| <= |candidates|
    ensures forall w :: w in results ==> w in candidates && Matches(w, letters)
  {
    if candidates == [] then []
    else
      var init := candidates[..|candidates| - 1];
      var w := candidates[|candidates| - 1];
      MatchAll(init, letters) + (if Matches(w, letters) then [w] else [])
  }

  /** No matching candidate is dropped. */
  lemma {:induction false} MatchAllKeepsEveryMatch(candidates: seq<string>, letters: map<nat, char>, w: string)
    requires w in candidates && Matches(w, letters)
    ensures w in MatchAll(candidates, letters)
    decreases |candidates|
  {
    var init := candidates[..|candidates| - 1];
    if w != candidates[|candidates| - 1] {
      assert candidates == init + [candidates[|candidates| - 1]];
      MatchAllKeepsEveryMatch(init, letters, w);
    }
  }

  /** The count of w in the results: all its occurrences when it matches,
      none otherwise. */
  lemma {:induction false} MatchAllOccurrences(candidates: seq<string>, letters: map<nat, char>, w: string)
    ensures Occurrences(MatchAll(candidates, letters), w)
         == if Matches(w, letters) then Occurrences(candidates, w) else 0
    decreases |candidates|
  {
    if candidates != [] {
      var init := candidates[..|candidates| - 1];
      var last := candidates[|candidates| - 1];
      var r := MatchAll(init, letters);
      MatchAllOccurrences(init, letters, w);
      if Matches(last, letters) {
        assert MatchAll(candidates, letters) == r + [last];
        assert (r + [last])[..|r|] == r;
      } else {
        assert MatchAll(candidates, letters) == r;
      }
    }
  }

  /** Every matching candidate is kept as often as it occurs, every other one
      never: with MatchAllIsSubsequence this fixes the results exactly. */
  lemma MatchAllKeepsEveryOccurrence(candidates: seq<string>, letters: map<nat, char>, w: string)
    ensures multiset(MatchAll(candidates, letters))[w]
         == if Matches(w, letters) then multiset(candidates)[w] else 0
  {
    MatchAllOccurrences(candidates, letters, w);
    OccurrencesIsMultiplicity(MatchAll(candidates, letters), w);
    OccurrencesIsMultiplicity(candidates, w);
  }

  /** The results keep the candidates' order: they are a subsequence of them. */
  lemma {:induction false} MatchAllIsSubsequence(candidates: seq<string>, letters: map<nat, char>)
    ensures IsSubsequence(MatchAll(candidates, letters), candidates)
    decreases |candidates|
  {
    if candidates != [] {
      var init := candidates[..|candidates| - 1];
      var w := candidates[|candidates| - 1];
      var r := MatchAll(init, letters);
      MatchAllIsSubsequence(init, letters);
      if Matches(w, letters) {
        assert MatchAll(candidates, letters) == r + [w];
        assert (r + [w])[..|r|] == r;
      } else {
        assert MatchAll(candidates, letters) == r;
      }
    }
  }

  /** With no known letters the whole bucket is returned. */
  lemma {:induction false} MatchAllWithoutLettersKeepsAll(candidates: seq<string>)
    ensures MatchAll(candidates, map[]) == candidates
    decreases |candidates|
  {
    if candidates != [] {
      MatchAllWithoutLettersKeepsAll(candidates[..|candidates| - 1]);
    }
  }

  /** A known letter at a position outside words of length rejects them all. */
  lemma {:induction false} OutOfRangeLetterRejectsAll(candidates: seq<string>, letters: map<nat, char>, length: int, pos: nat)
    requires forall i :: 0 <= i < |candidates| ==> |candidates[i]| == length
    requires pos in letters && pos >= length
    ensures MatchAll(candidates, letters) == []
    decreases |candidates|
  {
    if candidates != [] {
      OutOfRangeLetterRejectsAll(candidates[..|candidates| - 1], letters, length, pos);
    }
  }

  /** The search response once the dictionary is loaded: an invalid length is
      refused with status 400; otherwise the bucket of that length filtered by the
      lowercased known letters. */
  function CachedAnswer(cache: map<int, seq<string>>, req: Request): Response {
    if !ValidLength(req) then Failure(400, InvalidLengthMessage)
    else Results(MatchAll(Candidates(cache, req.wordLength.value), LetterMap(LowerItems(req.knownLetters))))
  }

  /** The filter loop of search_words: each candidate is checked against the
      known letters one by one, stopping at the first that fails. */
  method FilterCandidates(candidates: seq<string>, letters: map<nat, char>) returns (results: seq<string>)
    ensures results == MatchAll(candidates, letters)
  {
    results := [];
    for i := 0 to |candidates|
      invariant results == MatchAll(candidates[..i], letters)
    {
      var word := candidates[i];
      var matched := true;
      var pending := letters.Keys;
      while pending != {}
        invariant pending <= letters.Keys
        invariant forall pos :: pos in letters && pos !in pending ==> pos < |word| && word[pos] == letters[pos]
        decreases pending
      {
        var pos :| pos in pending;
        if pos >= |word| || word[pos] != letters[pos] {
          matched := false;
          break;
        }
        pending := pending - {pos};
      }
      assert candidates[..i + 1][..i] == candidates[..i];
      if matched {
        results := results + [word];
      }
    }
    assert candidates[..|candidates|] == candidates;
  }

  /** The statistics response. */
  datatype Stats = Stats(dictionaryLoaded: bool, totalWords: nat, wordsByLength: map<int, nat>)

  /** Sum of the counts of a map, taken key by key from the smallest. */
  function Sum(counts: map<int, nat>): nat
    decreases |counts.Keys|
  {
    if counts == map[] then 0
    else
      SmallestKeyExists(counts.Keys);
      var k :| k in counts && forall j :: j in counts ==> k <= j;
      assert (counts - {k}).Keys == counts.Keys - {k};
      counts[k] + Sum(counts - {k})
  }

  /** Every finite non-empty set of lengths has a least element. */
  lemma {:induction false} SmallestKey(keys: set<int>) returns (k: int)
    requires keys != {}
    ensures k in keys && forall j :: j in keys ==> k <= j
    decreases keys
  {
    assert (forall x :: x !in keys) ==> keys == {};
    var x :| x in keys;
    var rest := keys - {x};
    if rest == {} {
      k := x;
      forall j | j in keys ensures k <= j {
        assert j !in rest;
      }
    } else {
      var m := SmallestKey(rest);
      k := if x < m then x else m;
      forall j | j in keys ensures k <= j {
        if j != x { assert j in rest; }
      }
    }
  }

  lemma SmallestKeyExists(keys: set<int>)
    requires keys != {}
    ensures exists k :: k in keys && forall j :: j in keys ==> k <= j
  {
    var k := SmallestKey(keys);
  }

  /** Any key may be taken out first: the sum does not depend on the order. */
  lemma {:induction false} SumWithout(counts: map<int, nat>, k: int)
    requires k in counts
    ensures Sum(counts) == counts[k] + Sum(counts - {k})
    decreases |counts.Keys|
  {
    SmallestKeyExists(counts.Keys);
    var m :| m in counts && forall j :: j in counts ==> m <= j;
    assert Sum(counts) == counts[m] + Sum(counts - {m});
    if m != k {
      var rest := counts - {m};
      assert rest.Keys == counts.Keys - {m};
      SumWithout(rest, k);
      var restK := counts - {k};
      assert restK.Keys == counts.Keys - {k};
      SumWithout(restK, m);
      assert rest - {k} == restK - {m};
    }
  }

  /** Adding one to the count of key k (0 when absent) adds one to the sum. */
  lemma SumIncrement(counts: map<int, nat>, k: int)
    ensures Sum(counts[k := (if k in counts then counts[k] else 0) + 1]) == Sum(counts) + 1
  {
    var bumped := counts[k := (if k in counts then counts[k] else 0) + 1];
    SumWithout(bumped, k);
    assert bumped - {k} == counts - {k};
    if k in counts {
      SumWithout(counts, k);
    } else {
      assert counts - {k} == counts;
    }
  }

  /** The statistics' wordsByLength: one entry per bucket, giving its size. */
  function CountsByLength(cache: map<int, seq<string>>): (counts: map<int, nat>)
    ensures counts.Keys == cache.Keys
    ensures forall length :: length in cache ==> counts[length] == |cache[length]|
  {
    map length | length in cache :: |cache[length]|
  }

  /** Adding a word adds one to the count of its length and to the total. */
  lemma CountsAfterAddWord(cache: map<int, seq<string>>, word: string)
    ensures Sum(CountsByLength(AddWord(cache, word))) == Sum(CountsByLength(cache)) + 1
  {
    var counts := CountsByLength(cache);
    var length := |word|;
    SumIncrement(counts, length);
    assert CountsByLength(AddWord(cache, word)) == counts[length := (if length in counts then counts[length] else 0) + 1];
  }

  /** get_stats on a given cache and flag: one wordsByLength entry per bucket,
      giving its size, and totalWords the sum of those sizes. */
  function StatsOf(cache: map<int, seq<string>>, loaded: bool): (s: Stats)
    ensures s.dictionaryLoaded == loaded
    ensures s.wordsByLength.Keys == cache.Keys
    ensures forall length :: length in cache ==> s.wordsByLength[length] == |cache[length]|
    ensures s.totalWords == Sum(s.wordsByLength)
  {
    var counts := CountsByLength(cache);
    Stats(loaded, Sum(counts), counts)
  }

  /** After a load from lines, totalWords counts every non-empty parsed word and
      wordsByLength[length] the parsed words of that length. */
  lemma {:induction false} StatsCountEveryWord(lines: seq<string>, loaded: bool)
    ensures StatsOf(Index(lines), loaded).totalWords == |Words(lines)|
    ensures forall length :: length in Index(lines) ==>
      StatsOf(Index(lines), loaded).wordsByLength[length] == |OfLength(Words(lines), length)|
    decreases |lines|
  {
    IndexGroupsWordsByLength(lines);
    forall length | length in Index(lines)
      ensures StatsOf(Index(lines), loaded).wordsByLength[length] == |OfLength(Words(lines), length)|
    {
      assert Index(lines)[length] == Candidates(Index(lines), length);
    }
    if lines != [] {
      var init := lines[..|lines| - 1];
      var word := ParseEntry(lines[|lines| - 1]);
      StatsCountEveryWord(init, loaded);
      if word != [] {
        CountsAfterAddWord(Index(init), word);
        assert Words(lines) == Words(init) + [word];
      } else {
        assert Words(lines) == Words(init);
      }
    }
  }

  /** The process-wide state of advanced_app.py: word_cache and dictionary_loaded. */
  class CachedDictionary {
    var wordCache: map<int, seq<string>>
    var dictionaryLoaded: bool

    /** Module start: an empty cache, not loaded. */
    constructor ()
      ensures wordCache == map[] && !dictionaryLoaded
    {
      wordCache := map[];
      dictionaryLoaded := false;
    }

    /** load_dictionary: the cache is reset, then every line read is parsed and its
        word, if not empty, appended lowercased to the bucket of its length. The new
        cache depends on the lines alone, never on the old cache. A failure keeps
        the buckets built so far and clears the flag. */
    method LoadDictionary(file: DictFile)
      modifies this
      ensures wordCache == Index(file.LinesRead())
      ensures dictionaryLoaded == file.Readable?
    {
      wordCache := map[];
      var lines := file.LinesRead();
      for i := 0 to |lines|
        invariant wordCache == Index(lines[..i])
      {
        IndexStep(lines, i);
        var word := ParseEntry(lines[i]);
        if word == [] {
          continue;
        }
        var length := |word|;
        if length !in wordCache {
          wordCache := wordCache[length := []];
        }
        wordCache := wordCache[length := wordCache[length] + [LowerWord(word)]];
      }
      assert lines[..|lines|] == lines;
      dictionaryLoaded := file.Readable?;
    }

    /** search_words: loads first when not loaded and answers 500 if that fails;
        then refuses an invalid length with 400, or filters the bucket. */
    method SearchWords(file: DictFile, req: Request) returns (resp: Response)
      modifies this
      ensures old(dictionaryLoaded) ==> wordCache == old(wordCache) && dictionaryLoaded
      ensures !old(dictionaryLoaded) ==>
        wordCache == Index(file.LinesRead()) && dictionaryLoaded == file.Readable?
      ensures resp == if dictionaryLoaded then CachedAnswer(wordCache, req) else Failure(500, LoadFailedMessage)
    {
      if !dictionaryLoaded {
        LoadDictionary(file);
        if !dictionaryLoaded {
          return Failure(500, LoadFailedMessage);
        }
      }
      if req.wordLength.None? || req.wordLength.value <= 0 {
        return Failure(400, InvalidLengthMessage);
      }
      var letters := LetterMap(LowerItems(req.knownLetters));
      var candidates := Candidates(wordCache, req.wordLength.value);
      var results := FilterCandidates(candidates, letters);
      return Results(results);
    }

    /** get_stats: loads first when not loaded, then reports on the cache as it is,
        including a partial cache left by a failed load. */
    method GetStats(file: DictFile) returns (stats: Stats)
      modifies this
      ensures old(dictionaryLoaded) ==> wordCache == old(wordCache) && dictionaryLoaded
      ensures !old(dictionaryLoaded) ==>
        wordCache == Index(file.LinesRead()) && dictionaryLoaded == file.Readable?
      ensures stats == StatsOf(wordCache, dictionaryLoaded)
    {
      if !dictionaryLoaded {
        LoadDictionary(file);
      }
      stats := StatsOf(wordCache, dictionaryLoaded);
    }
  }
}
