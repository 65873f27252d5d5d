/** The dictionary file and the rules both search engines use to turn one of its
    lines into a word: the prefix before the first '/', or else the whole line with
    surrounding whitespace stripped. Lines are text already decoded from ISO-8859-2;
    a line is what Python's file iteration yields, newline included. */
module DictionaryFile {

  /** The contents of the dictionary file as the engines see it. Readable: every
      line of it. Unreadable: opening or decoding raised an exception after the lines
      in linesBeforeError had been processed; reason is the exception's text. */
  datatype DictFile =
    | Readable(lines: seq<string>)
    | Unreadable(linesBeforeError: seq<string>, reason: string)
  {
    /** The lines an engine processes before it finishes or fails. */
    function LinesRead(): seq<string> {
      if Readable? then lines else linesBeforeError
    }
  }

  /** Case folding of one character: Python's str.lower() on the Latin-1 and
      Latin Extended-A blocks, which hold every letter ISO-8859-2 decodes to. Upper
      case in U+00C0..U+00DE (but U+00D7) is 32 below its lower case; in Latin
      Extended-A upper and lower case are neighbours, the upper one even or odd by
      range; U+0178 folds to U+00FF. Three characters outside those blocks lower
      into them and are folded too: U+1E9E (capital sharp s) to U+00DF, U+212A
      (Kelvin sign) to k and U+212B (Angstrom sign) to U+00E5. Every other
      character is left unchanged; among them U+0130, which Python lowers to two
      characters and ISO-8859-2 does not contain. Only the example lemmas
      ExamplePolishCapitals and ExampleKelvinSign use this definition; every other
      result holds for any length-preserving case folding. */
  function Lower(c: char): char {
    var n := c as int;
    if 'A' <= c <= 'Z' || ('\U{00C0}' <= c <= '\U{00DE}' && c != '\U{00D7}') then (n + 32) as char
    else if (0x100 <= n <= 0x12F || 0x132 <= n <= 0x137 || 0x14A <= n <= 0x177) && n % 2 == 0 then (n + 1) as char
    else if (0x139 <= n <= 0x148 || 0x179 <= n <= 0x17E) && n % 2 == 1 then (n + 1) as char
    else if n == 0x178 then '\U{00FF}'
    else if n == 0x1E9E then '\U{00DF}'
    else if n == 0x212A then 'k'
    else if n == 0x212B then '\U{00E5}'
    else c
  }

  /** str.lower() on a word: character by character. */
  function LowerWord(w: string): (r: string)
    ensures |r| == |w|
    ensures forall i :: 0 <= i < |w| ==> r[i] == Lower(w[i])
  {
    if w == [] then [] else [Lower(w[0])] + LowerWord(w[1..])
  }

  /** The characters str.isspace() accepts, which str.strip() removes. */
  predicate IsSpace(c: char) {
    || '\t' <= c <= '\r' || '\U{001C}' <= c <= ' ' || c == '\U{0085}' || c == '\U{00A0}'
    || c == '\U{1680}' || '\U{2000}' <= c <= '\U{200A}' || c == '\U{2028}' || c == '\U{2029}'
    || c == '\U{202F}' || c == '\U{205F}' || c == '\U{3000}'
  }

  /** Drops leading whitespace: the result is a suffix of s, what was dropped is
      whitespace, and the result does not start with whitespace. */
  function TrimLeft(s: string): (r: string)
    ensures |r| <= |s| && r == s[|s| - |r|..]
    ensures forall i :: 0 <= i < |s| - |r| ==> IsSpace(s[i])
    ensures r != [] ==> !IsSpace(r[0])
    decreases |s|
  {
    if s != [] && IsSpace(s[0]) then TrimLeft(s[1..]) else s
  }

  /** Drops trailing whitespace: the result is a prefix of s, what was dropped is
      whitespace, and the result does not end with whitespace. */
  function TrimRight(s: string): (r: string)
    ensures |r| <= |s| && r == s[..|r|]
    ensures forall i :: |r| <= i < |s| ==> IsSpace(s[i])
    ensures r != [] ==> !IsSpace(r[|r| - 1])
    decreases |s|
  {
    if s != [] && IsSpace(s[|s| - 1]) then TrimRight(s[..|s| - 1]) else s
  }

  /** str.strip(): the result is the infix of s left once whitespace is removed
      from both ends, and it neither starts nor ends with whitespace. */
  function Strip(s: string): (r: string)
    ensures exists start ::
      0 <= start <= |s| && |r| <= |s| - start && r == s[start..][..|r|]
      && (forall i :: 0 <= i < start ==> IsSpace(s[i]))
      && (forall i :: start + |r| <= i < |s| ==> IsSpace(s[i]))
    ensures r != [] ==> !IsSpace(r[0]) && !IsSpace(r[|r| - 1])
  {
    var left := TrimLeft(s);
    var r := TrimRight(left);
    var start := |s| - |left|;
    assert r == s[start..][..|r|];
    r
  }

  /** str.find(c): the index of the first occurrence of c in s, or -1. */
  function FirstIndex(s: string, c: char): (r: int)
    ensures -1 <= r < |s|
    ensures r == -1 <==> c !in s
    ensures 0 <= r ==> s[r] == c && c !in s[..r]
  {
    if s == [] then -1
    else if s[0] == c then 0
    else
      var rest := FirstIndex(s[1..], c);
      if rest == -1 then -1
      else
        assert s[..rest + 1] == [s[0]] + s[1..][..rest];
        rest + 1
  }

  /** The word a dictionary line stands for: with a '/', exactly the text before
      the first '/' (not stripped); without one, the stripped line. */
  function ParseEntry(line: string): (word: string)
    ensures '/' in line ==> |word| < |line| && word == line[..|word|] && line[|word|] == '/'
    ensures '/' !in line ==> word == Strip(line)
    ensures '/' !in word
  {
    var slash := FirstIndex(line, '/');
    if slash != -1 then line[..slash]
    else
      var word := Strip(line);
      assert forall c :: c in word ==> c in line;
      word
  }

  /** The nine Polish capital letters fold to their lower-case forms. */
  lemma ExamplePolishCapitals()
    ensures Lower('\U{0104}') == '\U{0105}' && Lower('\U{0106}') == '\U{0107}'
    ensures Lower('\U{0118}') == '\U{0119}' && Lower('\U{0141}') == '\U{0142}'
    ensures Lower('\U{0143}') == '\U{0144}' && Lower('\U{00D3}') == '\U{00F3}'
    ensures Lower('\U{015A}') == '\U{015B}' && Lower('\U{0179}') == '\U{017A}'
    ensures Lower('\U{017B}') == '\U{017C}'
  {
  }

  /** An affix-annotated entry yields the word before its '/'. The literal is
      passed through the requires so that the verifier does not unroll it. */
  lemma ExampleAffixEntry(line: string)
    requires line == "kot/affix1\n"
    ensures ParseEntry(line) == "kot"
  {
    assert line[3] == '/' && line[..3] == "kot";
    assert '/' in line;
  }

  /** A plain entry yields the line without its newline. */
  lemma ExamplePlainEntry()
    ensures ParseEntry("pies\n") == "pies"
  {
    assert FirstIndex("pies\n", '/') == -1;
    assert TrimLeft("pies\n") == "pies\n";
    assert "pies\n"[..4] == "pies";
    assert TrimRight("pies") == "pies";
    assert TrimRight("pies\n") == "pies";
  }

  /** The non-empty parsed words of the lines, in file order, duplicates kept. */
  function Words(lines: seq<string>): (ws: seq<string>)
    ensures |ws| <= |lines|
    ensures [] !in ws
  {
    if lines == [] then []
    else
      var word := ParseEntry(lines[|lines| - 1]);
      Words(lines[..|lines| - 1]) + (if word == [] then [] else [word])
  }

  /** The words of ws whose length is length, in order, duplicates kept. */
  function OfLength(ws: seq<string>, length: int): (r: seq<string>)
    ensures |r| <= |ws|
    ensures forall i :: 0 <= i < |r| ==> |r[i]| == length && r[i] in ws
  {
    if ws == [] then []
    else
      var w := ws[|ws| - 1];
      OfLength(ws[..|ws| - 1], length) + (if |w| == length then [w] else [])
  }

  /** Every word of ws lowercased, position by position. */
  function LowerAll(ws: seq<string>): (r: seq<string>)
    ensures |r| == |ws|
    ensures forall i :: 0 <= i < |ws| ==> r[i] == LowerWord(ws[i])
  {
    if ws == [] then [] else LowerAll(ws[..|ws| - 1]) + [LowerWord(ws[|ws| - 1])]
  }

  /** How many times x occurs in s. */
  function Occurrences<T(==)>(s: seq<T>, x: T): nat
    decreases |s|
  {
    if s == [] then 0
    else Occurrences(s[..|s| - 1], x) + (if s[|s| - 1] == x then 1 else 0)
  }

  /** Occurrences is the multiplicity of x in the multiset of s. */
  lemma {:induction false} OccurrencesIsMultiplicity<T>(s: seq<T>, x: T)
    ensures Occurrences(s, x) == multiset(s)[x]
    decreases |s|
  {
    if s != [] {
      var init := s[..|s| - 1];
      OccurrencesIsMultiplicity(init, x);
      assert s == init + [s[|s| - 1]];
    }
  }

  /** xs can be obtained from ys by deleting elements: same order, nothing added. */
  ghost predicate IsSubsequence<T>(xs: seq<T>, ys: seq<T>)
    decreases |ys|
  {
    xs == []
    || (ys != []
        && ((xs[|xs| - 1] == ys[|ys| - 1] && IsSubsequence(xs[..|xs| - 1], ys[..|ys| - 1]))
            || IsSubsequence(xs, ys[..|ys| - 1])))
  }
}
