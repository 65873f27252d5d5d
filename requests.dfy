/** The search request and response both engines share: a word length that may be
    missing, a list of known (position, letter) pairs, and either the matched words
    or an error with an HTTP status. */
module Requests {
  import opened DictionaryFile

  datatype Option<T> = None | Some(value: T)

  /** One entry of knownLetters: a zero-based position and the letter there. */
  datatype KnownLetter = KnownLetter(position: nat, letter: char)

  /** The JSON body: wordLength (None when the key is missing) and knownLetters
      ([] when the key is missing). */
  datatype Request = Request(wordLength: Option<int>, knownLetters: seq<KnownLetter>)

  datatype Response =
    | Results(words: seq<string>)
    | Failure(status: int, message: string)

  const InvalidLengthMessage: string := "Invalid word length"

  /** A length search_words accepts: present and positive. A missing, zero or
      negative length is refused with status 400. */
  predicate ValidLength(req: Request) {
    req.wordLength.Some? && req.wordLength.value > 0
  }

  /** No later entry of known names the position known[i] names. */
  predicate IsLastAt(known: seq<KnownLetter>, i: nat)
    requires i < |known|
  {
    forall j :: i < j < |known| ==> known[j].position != known[i].position
  }

  /** The dictionary comprehension {position: letter}: one key per position that
      occurs, and for each position the letter of its last occurrence. */
  function LetterMap(known: seq<KnownLetter>): (m: map<nat, char>)
    ensures m.Keys == set k | k in known :: k.position
    ensures forall i :: 0 <= i < |known| && IsLastAt(known, i) ==> m[known[i].position] == known[i].letter
  {
    if known == [] then map[]
    else
      var n := |known| - 1;
      var init := known[..n];
      var prev := LetterMap(init);
      var m := prev[known[n].position := known[n].letter];
      assert known == init + [known[n]];
      assert (set k | k in known :: k.position) == (set k | k in init :: k.position) + {known[n].position};
      assert forall i :: 0 <= i < |known| && IsLastAt(known, i) ==> m[known[i].position] == known[i].letter by {
        forall i | 0 <= i < |known| && IsLastAt(known, i) ensures m[known[i].position] == known[i].letter {
          if i < n {
            assert IsLastAt(init, i);
          }
        }
      }
      m
  }

  /** The letters of a constraint map lowercased, positions unchanged. */
  function LowerLetters(letters: map<nat, char>): (m: map<nat, char>)
    ensures m.Keys == letters.Keys
    ensures forall pos :: pos in letters ==> m[pos] == Lower(letters[pos])
  {
    map pos | pos in letters :: Lower(letters[pos])
  }

  /** Every known letter lowercased, in order, positions unchanged. */
  function LowerItems(known: seq<KnownLetter>): (r: seq<KnownLetter>)
    ensures |r| == |known|
    ensures forall i :: 0 <= i < |known| ==>
      r[i].position == known[i].position && r[i].letter == Lower(known[i].letter)
  {
    if known == [] then []
    else
      var last := known[|known| - 1];
      LowerItems(known[..|known| - 1]) + [KnownLetter(last.position, Lower(last.letter))]
  }

  /** The comprehension's step: the last item overrides its position. */
  lemma LetterMapStep(known: seq<KnownLetter>)
    requires known != []
    ensures LetterMap(known)
         == LetterMap(known[..|known| - 1])[known[|known| - 1].position := known[|known| - 1].letter]
  {
  }

  /** Lowering after an update is the update with the lowered letter. */
  lemma LowerLettersUpdate(letters: map<nat, char>, pos: nat, letter: char)
    ensures LowerLetters(letters[pos := letter]) == LowerLetters(letters)[pos := Lower(letter)]
  {
  }

  /** Lowering each item inside the comprehension gives the map whose last-wins
      letters are lowercased afterwards. */
  lemma {:induction false} LoweredItemsGiveLoweredMap(known: seq<KnownLetter>)
    ensures LetterMap(LowerItems(known)) == LowerLetters(LetterMap(known))
    decreases |known|
  {
    if known != [] {
      var n := |known| - 1;
      var init := known[..n];
      var items := LowerItems(known);
      LoweredItemsGiveLoweredMap(init);
      assert items[..n] == LowerItems(init);
      LetterMapStep(items);
      LetterMapStep(known);
      LowerLettersUpdate(LetterMap(init), known[n].position, known[n].letter);
    }
  }
}
