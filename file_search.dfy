/** The uncached engine of backend/app.py: every search validates the length and
    then reads the whole dictionary file, keeping each parsed word of the requested
    length whose letters match the known letters case-insensitively. Returned words
    keep the casing they have in the file. */
module FileSearch {
  import opened DictionaryFile
  import opened Requests

  /** A word that meets every constraint: the position lies inside the word and
      its character equals the letter once both are lowercased. */
  predicate FoldedMatches(word: string, letters: map<nat, char>) {
    forall pos :: pos in letters ==> pos < |word| && Lower(word[pos]) == Lower(letters[pos])
  }

  /** The parsed words of the lines that have the given length and match, in
      file order, duplicates kept, casing unchanged. */
  function Scan(lines: seq<string>, length: int, letters: map<nat, char>): (results: seq<string>)
    ensures |results| <= |lines|
    ensures forall w :: w in results ==> |w| == length && FoldedMatches(w, letters)
  {
    if lines == [] then []
    else
      var word := ParseEntry(lines[|lines| - 1]);
      Scan(lines[..|lines| - 1], length, letters)
        + (if |word| == length && FoldedMatches(word, letters) then [word] else [])
  }

  /** The pass's step: the results of one more line. */
  lemma ScanStep(lines: seq<string>, i: nat, length: int, letters: map<nat, char>, word: string)
    requires i < |lines| && word == ParseEntry(lines[i])
    ensures |word| == length && FoldedMatches(word, letters) ==>
      Scan(lines[..i + 1], length, letters) == Scan(lines[..i], length, letters) + [word]
    ensures !(|word| == length && FoldedMatches(word, letters)) ==>
      Scan(lines[..i + 1], length, letters) == Scan(lines[..i], length, letters)
  {
    assert lines[..i + 1][..i] == lines[..i];
  }

  /** The response of search_words: an invalid length is refused with 400 before
      the file is read; a read failure answers 500 with the exception's text. */
  function FileAnswer(file: DictFile, req: Request): Response {
    if !ValidLength(req) then Failure(400, InvalidLengthMessage)
    else if file.Unreadable? then Failure(500, file.reason)
    else Results(Scan(file.lines, req.wordLength.value, LetterMap(req.knownLetters)))
  }

  /** The inner constraint loop of search_words: the letters are tried one by
      one, stopping at the first position outside the word or holding another
      letter, both compared lowercased. */
  method CheckLetters(word: string, letters: map<nat, char>) returns (matched: bool)
    ensures matched == FoldedMatches(word, letters)
  {
    matched := true;
    var pending := letters.Keys;
    while pending != {}
      invariant pending <= letters.Keys
      invariant forall pos :: pos in letters && pos !in pending ==>
        pos < |word| && Lower(word[pos]) == Lower(letters[pos])
      decreases pending
    {
      var pos :| pos in pending;
      if pos >= |word| || Lower(word[pos]) != Lower(letters[pos]) {
        matched := false;
        break;
      }
      pending := pending - {pos};
    }
  }

  /** search_words: validation, the letter map, then one pass over the lines
      that checks the known letters of every word of the requested length. */
  method SearchWords(file: DictFile, req: Request) returns (resp: Response)
    ensures resp == FileAnswer(file, req)
  {
    if req.wordLength.None? || req.wordLength.value <= 0 {
      return Failure(400, InvalidLengthMessage);
    }
    var length := req.wordLength.value;
    var letters := LetterMap(req.knownLetters);
    var results := [];
    var lines := file.LinesRead();
    for i := 0 to |lines|
      invariant results == Scan(lines[..i], length, letters)
    {
      var word := ParseEntry(lines[i]);
      ScanStep(lines, i, length, letters, word);
      if |word| == length {
        var matched := CheckLetters(word, letters);
        if matched {
          results := results + [word];
        }
      }
    }
    assert lines[..|lines|] == lines;
    if file.Unreadable? {
      return Failure(500, file.reason);
    }
    return Results(results);
  }

  /** Every returned word is one of the parsed words, in file order: the results
      are a subsequence of the non-empty parsed words, so their casing is the
      file's. */
  lemma {:induction false} ScanIsSubsequenceOfWords(lines: seq<string>, length: int, letters: map<nat, char>)
    requires length > 0
    ensures IsSubsequence(Scan(lines, length, letters), Words(lines))
    decreases |lines|
  {
    if lines != [] {
      var init := lines[..|lines| - 1];
      var word := ParseEntry(lines[|lines| - 1]);
      var r := Scan(init, length, letters);
      var ws := Words(init);
      ScanIsSubsequenceOfWords(init, length, letters);
      if word == [] {
        assert Words(lines) == ws;
        assert Scan(lines, length, letters) == r;
      } else {
        assert Words(lines) == ws + [word];
        assert (ws + [word])[..|ws|] == ws;
        if |word| == length && FoldedMatches(word, letters) {
          assert Scan(lines, length, letters) == r + [word];
          assert (r + [word])[..|r|] == r;
        } else {
          assert Scan(lines, length, letters) == r;
        }
      }
    }
  }

  /** No matching word of the requested length is dropped. */
  lemma {:induction false} ScanKeepsEveryMatch(lines: seq<string>, length: int, letters: map<nat, char>, w: string)
    requires w in Words(lines) && |w| == length && FoldedMatches(w, letters)
    ensures w in Scan(lines, length, letters)
    decreases |lines|
  {
    var init := lines[..|lines| - 1];
    var word := ParseEntry(lines[|lines| - 1]);
    if word != w {
      assert Words(lines) == Words(init) + (if word == [] then [] else [word]);
      ScanKeepsEveryMatch(init, length, letters, w);
    }
  }

  /** Every parsed word of the requested length that matches is returned as
      often as the file holds it, every other word never: with
      ScanIsSubsequenceOfWords this fixes the results exactly. */
  lemma {:induction false} ScanKeepsEveryOccurrence(lines: seq<string>, length: int, letters: map<nat, char>, w: string)
    requires length > 0
    ensures multiset(Scan(lines, length, letters))[w]
         == if |w| == length && FoldedMatches(w, letters) then multiset(Words(lines))[w] else 0
    decreases |lines|
  {
    if lines != [] {
      var init := lines[..|lines| - 1];
      var word := ParseEntry(lines[|lines| - 1]);
      ScanKeepsEveryOccurrence(init, length, letters, w);
      assert Words(lines) == Words(init) + (if word == [] then [] else [word]);
    }
  }

  /** With no known letters every parsed word of the requested length is returned. */
  lemma {:induction false} ScanWithoutLettersKeepsLength(lines: seq<string>, length: int)
    requires length > 0
    ensures Scan(lines, length, map[]) == OfLength(Words(lines), length)
    decreases |lines|
  {
    if lines != [] {
      var init := lines[..|lines| - 1];
      var word := ParseEntry(lines[|lines| - 1]);
      ScanWithoutLettersKeepsLength(init, length);
      var ws := Words(init);
      var of := OfLength(ws, length);
      if word != [] {
        assert Words(lines) == ws + [word];
        assert (ws + [word])[..|ws|] == ws;
        assert OfLength(Words(lines), length) == of + (if |word| == length then [word] else []);
      } else {
        assert Words(lines) == ws;
      }
      var none: map<nat, char> := map[];
      assert FoldedMatches(word, none);
      assert Scan(lines, length, none) == Scan(init, length, none) + (if |word| == length then [word] else []);
    }
  }

  /** A known letter at a position at or beyond the requested length rejects
      every word. */
  lemma {:induction false} OutOfRangeLetterFindsNothing(lines: seq<string>, length: int, letters: map<nat, char>, pos: nat)
    requires pos in letters && pos >= length
    ensures Scan(lines, length, letters) == []
    decreases |lines|
  {
    if lines != [] {
      OutOfRangeLetterFindsNothing(lines[..|lines| - 1], length, letters, pos);
    }
  }
}
