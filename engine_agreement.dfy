/** The two engines agree: on the same dictionary lines, the cached search of
    backend/advanced_app.py returns exactly the words the uncached search of
    backend/app.py returns, each lowercased. This holds for every letter, not only
    lowercase ones, since both sides compare lowercased characters. */
module EngineAgreement {
  import opened DictionaryFile
  import opened Requests
  import opened CachedSearch
  import opened FileSearch

  /** Matching a lowercased word against lowercased letters is matching the word
      case-insensitively. */
  lemma LoweredMatchIsFoldedMatch(word: string, letters: map<nat, char>)
    ensures Matches(LowerWord(word), LowerLetters(letters)) == FoldedMatches(word, letters)
  {
    var lowered := LowerWord(word);
    var folded := LowerLetters(letters);
    if FoldedMatches(word, letters) {
      forall pos | pos in folded ensures pos < |lowered| && lowered[pos] == folded[pos] {
        assert pos in letters;
      }
    } else {
      var pos :| pos in letters && !(pos < |word| && Lower(word[pos]) == Lower(letters[pos]));
      assert pos in folded;
    }
  }

  /** Bucket length of the cache built from lines, filtered by the lowercased
      letters, is the uncached result on the same lines, lowercased. */
  lemma {:induction false} FilteredBucketIsLoweredScan(lines: seq<string>, length: int, letters: map<nat, char>)
    requires length > 0
    ensures MatchAll(Candidates(Index(lines), length), LowerLetters(letters))
         == LowerAll(Scan(lines, length, letters))
    decreases |lines|
  {
    if lines != [] {
      var init := lines[..|lines| - 1];
      var word := ParseEntry(lines[|lines| - 1]);
      var folded := LowerLetters(letters);
      FilteredBucketIsLoweredScan(init, length, letters);
      var bucket := Candidates(Index(init), length);
      var scanned := Scan(init, length, letters);
      if word != [] && |word| == length {
        LoweredMatchIsFoldedMatch(word, letters);
        assert Candidates(Index(lines), length) == bucket + [LowerWord(word)];
        assert (bucket + [LowerWord(word)])[..|bucket|] == bucket;
        if FoldedMatches(word, letters) {
          assert Scan(lines, length, letters) == scanned + [word];
          assert (scanned + [word])[..|scanned|] == scanned;
        } else {
          assert Scan(lines, length, letters) == scanned;
        }
      } else {
        assert Candidates(Index(lines), length) == bucket;
        assert Scan(lines, length, letters) == scanned;
      }
    }
  }

  /** The responses agree for a loaded cache: the same 400 for an invalid length,
      otherwise the cached results are the uncached results lowercased. */
  lemma SearchEnginesAgree(lines: seq<string>, req: Request)
    ensures !ValidLength(req) ==> CachedAnswer(Index(lines), req) == FileAnswer(Readable(lines), req)
    ensures ValidLength(req) ==>
      CachedAnswer(Index(lines), req) == Results(LowerAll(FileAnswer(Readable(lines), req).words))
  {
    if ValidLength(req) {
      LoweredItemsGiveLoweredMap(req.knownLetters);
      FilteredBucketIsLoweredScan(lines, req.wordLength.value, LetterMap(req.knownLetters));
    }
  }

  /** The first search of a freshly started cached engine and a search of the
      uncached engine, on the same readable dictionary and request. */
  method FirstSearchesAgree(lines: seq<string>, req: Request) returns (cached: Response, uncached: Response)
    ensures !ValidLength(req) ==> cached == uncached == Failure(400, InvalidLengthMessage)
    ensures ValidLength(req) ==> cached.Results? && uncached.Results? && cached.words == LowerAll(uncached.words)
  {
    var engine := new CachedDictionary();
    cached := engine.SearchWords(Readable(lines), req);
    uncached := FileSearch.SearchWords(Readable(lines), req);
    SearchEnginesAgree(lines, req);
  }

  /** A Kelvin sign given as a known letter lowers to k, so both engines match
      the word kot against it. The literals are passed through the requires so
      that the verifier does not unroll them. */
  lemma ExampleKelvinSign(word: string, letters: map<nat, char>)
    requires word == "kot" && letters == map[0 := '\U{212A}']
    ensures FoldedMatches(word, letters)
    ensures Matches(LowerWord(word), LowerLetters(letters))
  {
    assert Lower(word[0]) == 'k' == Lower(letters[0]);
    LoweredMatchIsFoldedMatch(word, letters);
  }
}
