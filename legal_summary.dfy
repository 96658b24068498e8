/** The offline summary of `legal_processor.py`: `_split_sentences`, `_word_freqs`,
    `extractive_summary`, and the sentence budget that `generate_summary` picks when
    the language model is unavailable. */
module LegalSummary {
  import opened Wrappers
  import opened Text
  import opened Dict
  import opened Sorting

  // ------------------------------------------------------------ sentences

  /** The characters the look-behind `(?<=[.!?])` accepts. */
  predicate IsStop(c: char) {
    c == '.' || c == '!' || c == '?'
  }

  /** A match of `(?<=[.!?])\s+` can begin at `k`: a stop before it, white space at it. */
  predicate SplitsAt(t: string, k: nat) {
    0 < k < |t| && IsStop(t[k - 1]) && IsSpace(t[k])
  }

  /** The first index at or after `k` where a separator begins. */
  function FirstSplit(t: string, k: nat): (r: Option<nat>)
    ensures r.Some? ==> k <= r.value && SplitsAt(t, r.value)
    ensures r.Some? ==> forall j: nat :: k <= j < r.value ==> !SplitsAt(t, j)
    ensures r.None? ==> forall j: nat :: k <= j ==> !SplitsAt(t, j)
    decreases |t| - k
  {
    if k >= |t| then None
    else if SplitsAt(t, k) then Some(k)
    else FirstSplit(t, k + 1)
  }

  /** The end of the white-space run that begins at `k`: `\s+` is greedy. */
  function SpaceEnd(t: string, k: nat): (e: nat)
    requires k <= |t|
    ensures k <= e <= |t| && AllSpace(t[k..e])
    ensures e < |t| ==> !IsSpace(t[e])
    decreases |t| - k
  {
    if k < |t| && IsSpace(t[k]) then
      var e := SpaceEnd(t, k + 1);
      assert t[k..e] == [t[k]] + t[k + 1..e];
      e
    else k
  }

  /** `re.split(r"(?<=[.!?])\s+", t)`: a separator is a whole white-space run after a
      `.`, `!` or `?`, and the scan resumes where the run ends. */
  function SplitAfterStops(t: string): (parts: seq<string>)
    ensures |parts| >= 1
    decreases |t|
  {
    match FirstSplit(t, 0)
    case None => [t]
    case Some(k) => [t[..k]] + SplitAfterStops(t[SpaceEnd(t, k)..])
  }

  /** `[p.strip() for p in parts if p.strip()]`. */
  function StrippedParts(parts: seq<string>): seq<string> {
    if parts == [] then []
    else
      var r := Strip(parts[0]);
      (if r == [] then [] else [r]) + StrippedParts(parts[1..])
  }

  /** `_split_sentences(text)`. */
  function SplitSentences(text: string): seq<string> {
    StrippedParts(SplitAfterStops(Strip(text)))
  }

  // ------------------------------------------------------------ what the splitter promises

  /** No separator begins anywhere in `s`. */
  predicate NoSeparator(s: string) {
    forall j :: 0 <= j < |s| ==> !SplitsAt(s, j)
  }

  /** A string that ends with one of the stop characters. */
  predicate EndsWithStop(s: string) {
    s != [] && IsStop(s[|s| - 1])
  }

  /** What holds of the sentences, or of the raw parts before stripping: none holds a
      separator, and all but the last end with a stop. */
  predicate SentenceShape(parts: seq<string>) {
    (forall a :: 0 <= a < |parts| ==> NoSeparator(parts[a]))
    && (forall a :: 0 <= a < |parts| - 1 ==> EndsWithStop(parts[a]))
  }

  /** The raw parts are cut at every separator and nowhere else: each part is free of
      separators, and every part but the last ends with the stop before its separator. */
  lemma {:induction false} SplitShape(t: string)
    ensures SentenceShape(SplitAfterStops(t))
    decreases |t|
  {
    match FirstSplit(t, 0)
    case None =>
      assert SplitAfterStops(t) == [t];
    case Some(k) =>
      var head, rest := t[..k], t[SpaceEnd(t, k)..];
      SplitShape(rest);
      assert SplitAfterStops(t) == [head] + SplitAfterStops(rest);
      forall j | 0 <= j < |head| ensures !SplitsAt(head, j) {
        if 0 < j { assert !SplitsAt(t, j); }
      }
      HeadShape(head, SplitAfterStops(rest));
  }

  /** Only white space lies between the raw parts. */
  lemma {:induction false} SplitVisible(t: string)
    ensures Visible(Concat(SplitAfterStops(t))) == Visible(t)
    decreases |t|
  {
    match FirstSplit(t, 0)
    case None =>
      assert Concat(SplitAfterStops(t)) == t;
    case Some(k) =>
      var e := SpaceEnd(t, k);
      var head, rest := t[..k], t[e..];
      SplitVisible(rest);
      var tail := SplitAfterStops(rest);
      assert SplitAfterStops(t) == [head] + tail;
      assert Concat([head] + tail) == head + Concat(tail);
      assert t == head + t[k..e] + rest;
      VisibleConcat(head + t[k..e], rest);
      VisibleConcat(head, t[k..e]);
      VisibleOfSpaces(t[k..e]);
      VisibleConcat(head, Concat(tail));
  }

  /** A head free of separators and ending with a stop extends a list of the shape. */
  lemma {:induction false} HeadShape(head: string, tail: seq<string>)
    requires EndsWithStop(head) && NoSeparator(head)
    requires SentenceShape(tail) && tail != []
    ensures SentenceShape([head] + tail)
  {
    var parts := [head] + tail;
    forall a | 0 <= a < |parts| ensures NoSeparator(parts[a]) {
      if a > 0 { assert parts[a] == tail[a - 1]; }
    }
    forall a | 0 <= a < |parts| - 1 ensures EndsWithStop(parts[a]) {
      if a > 0 { assert parts[a] == tail[a - 1]; }
    }
  }

  /** Stripping a part keeps it free of separators, and keeps its final stop. */
  lemma {:induction false} StripShape(p: string)
    requires NoSeparator(p)
    ensures NoSeparator(Strip(p))
    ensures EndsWithStop(p) ==> Strip(p) != [] && EndsWithStop(Strip(p))
  {
    var r, lo := Strip(p), LeadingSpace(p);
    StripSlice(p);
    forall j | 0 <= j < |r| ensures !SplitsAt(r, j) {
      if 0 < j {
        assert r[j - 1] == p[lo + j - 1] && r[j] == p[lo + j];
        assert !SplitsAt(p, lo + j);
      }
    }
    if EndsWithStop(p) {
      StripEnd(p, lo, r);
    }
  }

  /** A string that ends with a character other than white space keeps that character at
      the end of the slice with only white space around it. */
  lemma {:induction false} StripEnd(s: string, lo: nat, r: string)
    requires SpaceAround(s, lo, r) && s != [] && !IsSpace(s[|s| - 1])
    ensures r != [] && r[|r| - 1] == s[|s| - 1]
  {
    SpaceSuffixEmpty(s, lo + |r|);
    assert s == s[..lo] + r;
  }

  /** Only an empty suffix is white space when the last character is not. */
  lemma {:induction false} SpaceSuffixEmpty(s: string, k: nat)
    requires k <= |s| && AllSpace(s[k..]) && s != [] && !IsSpace(s[|s| - 1])
    ensures k == |s|
  {
  }

  /** Stripping and dropping the empty parts keeps the shape. */
  lemma {:induction false} StrippedShape(parts: seq<string>)
    requires SentenceShape(parts)
    ensures SentenceShape(StrippedParts(parts))
  {
    if parts != [] {
      var p, rest := parts[0], parts[1..];
      var r, tail := Strip(p), StrippedParts(rest);
      assert SentenceShape(rest) by {
        forall a | 0 <= a < |rest| - 1 ensures EndsWithStop(rest[a]) { assert rest[a] == parts[a + 1]; }
        forall a | 0 <= a < |rest| ensures NoSeparator(rest[a]) { assert rest[a] == parts[a + 1]; }
      }
      StrippedShape(rest);
      assert NoSeparator(p);
      StripShape(p);
      if r != [] {
        assert StrippedParts(parts) == [r] + tail;
        if tail != [] {
          assert rest != [];
          assert EndsWithStop(parts[0]);
          HeadShape(r, tail);
        }
      }
    }
  }

  /** Stripping and dropping the empty parts keeps every visible character, in order. */
  lemma {:induction false} StrippedVisible(parts: seq<string>)
    ensures Visible(Concat(StrippedParts(parts))) == Visible(Concat(parts))
  {
    if parts != [] {
      var p, rest := parts[0], parts[1..];
      var r, tail := Strip(p), StrippedParts(rest);
      StrippedVisible(rest);
      StripVisible(p);
      assert Concat(parts) == p + Concat(rest);
      VisibleConcat(p, Concat(rest));
      if r != [] {
        assert StrippedParts(parts) == [r] + tail;
        assert Concat([r] + tail) == r + Concat(tail);
        VisibleConcat(r, Concat(tail));
      } else {
        assert StrippedParts(parts) == tail;
      }
    }
  }

  /** Every stripped part is non-empty and has no white space around it. */
  lemma {:induction false} StrippedClean(parts: seq<string>)
    ensures forall a :: 0 <= a < |StrippedParts(parts)| ==>
              StrippedParts(parts)[a] != [] && Strip(StrippedParts(parts)[a]) == StrippedParts(parts)[a]
  {
    if parts != [] {
      var r, tail := Strip(parts[0]), StrippedParts(parts[1..]);
      StrippedClean(parts[1..]);
      StripIdempotent(parts[0]);
      assert StrippedParts(parts) == (if r == [] then [] else [r]) + tail;
    }
  }

  /** `_split_sentences` never returns an empty sentence or one with white space around
      it; no sentence holds a separator, every sentence but the last ends with `.`, `!`
      or `?`, and together the sentences hold exactly the text's non-white-space
      characters, in order. */
  lemma {:induction false} SentencesSpec(text: string)
    ensures var ss := SplitSentences(text);
            (forall a :: 0 <= a < |ss| ==> ss[a] != [] && Strip(ss[a]) == ss[a])
            && SentenceShape(ss)
            && Visible(Concat(ss)) == Visible(text)
  {
    var t := Strip(text);
    SplitShape(t);
    SplitVisible(t);
    StrippedShape(SplitAfterStops(t));
    StrippedVisible(SplitAfterStops(t));
    StrippedClean(SplitAfterStops(t));
    StripVisible(text);
  }

  // ------------------------------------------------------------ words

  /** The regex class `[a-zA-Z0-9']`. */
  predicate IsWordChar(c: char) {
    IsAsciiLetter(c) || IsAsciiDigit(c) || c == '\''
  }

  predicate AllWordChars(w: string) {
    forall j :: 0 <= j < |w| ==> IsWordChar(w[j])
  }

  /** The end of the run of word characters that begins at `i`. */
  function RunEnd(s: string, i: nat): (e: nat)
    requires i <= |s|
    ensures i <= e <= |s| && AllWordChars(s[i..e])
    ensures e < |s| ==> !IsWordChar(s[e])
    decreases |s| - i
  {
    if i < |s| && IsWordChar(s[i]) then
      var e := RunEnd(s, i + 1);
      assert s[i..e] == [s[i]] + s[i + 1..e];
      e
    else i
  }

  /** `re.findall(r"[a-zA-Z0-9']+", s[i:])`: the maximal runs of word characters. */
  function WordsFrom(s: string, i: nat): seq<string>
    requires i <= |s|
    decreases |s| - i
  {
    if i == |s| then []
    else if !IsWordChar(s[i]) then WordsFrom(s, i + 1)
    else
      var e := RunEnd(s, i);
      [s[i..e]] + WordsFrom(s, e)
  }

  function Words(s: string): seq<string> {
    WordsFrom(s, 0)
  }

  /** The word characters of `s`, in order. */
  function WordChars(s: string): string {
    if s == [] then [] else (if IsWordChar(s[0]) then [s[0]] else []) + WordChars(s[1..])
  }

  lemma {:induction false} WordCharsConcat(a: string, b: string)
    ensures WordChars(a + b) == WordChars(a) + WordChars(b)
  {
    if a == [] {
      assert a + b == b;
    } else {
      var h := if IsWordChar(a[0]) then [a[0]] else [];
      assert (a + b)[0] == a[0] && (a + b)[1..] == a[1..] + b;
      WordCharsConcat(a[1..], b);
      assert h + (WordChars(a[1..]) + WordChars(b)) == (h + WordChars(a[1..])) + WordChars(b);
    }
  }

  lemma {:induction false} WordCharsOfWord(w: string)
    requires AllWordChars(w)
    ensures WordChars(w) == w
  {
    if w != [] {
      assert AllWordChars(w[1..]);
      WordCharsOfWord(w[1..]);
      assert w == [w[0]] + w[1..];
    }
  }

  /** Every word is a non-empty run of word characters, and together the words hold
      exactly the word characters of `s[i..]`, in order. */
  lemma {:induction false} WordsFromSpec(s: string, i: nat)
    requires i <= |s|
    ensures var ws := WordsFrom(s, i);
            (forall a :: 0 <= a < |ws| ==> ws[a] != [] && AllWordChars(ws[a]))
            && Concat(ws) == WordChars(s[i..])
    decreases |s| - i
  {
    if i < |s| {
      if !IsWordChar(s[i]) {
        WordsFromSpec(s, i + 1);
        assert s[i..] == [s[i]] + s[i + 1..];
        WordCharsConcat([s[i]], s[i + 1..]);
      } else {
        var e := RunEnd(s, i);
        var w, ws := s[i..e], WordsFrom(s, e);
        WordsFromSpec(s, e);
        assert WordsFrom(s, i) == [w] + ws;
        forall a | 0 <= a < |[w] + ws| ensures ([w] + ws)[a] != [] && AllWordChars(([w] + ws)[a]) {
          if a > 0 { assert ([w] + ws)[a] == ws[a - 1]; }
        }
        assert Concat([w] + ws) == w + Concat(ws);
        assert s[i..] == w + s[e..];
        WordCharsConcat(w, s[e..]);
        WordCharsOfWord(w);
      }
    }
  }

  /** The words of a text are non-empty runs of word characters that hold all its word
      characters, in order. */
  lemma {:induction false} WordsSpec(s: string)
    ensures var ws := Words(s);
            (forall a :: 0 <= a < |ws| ==> ws[a] != [] && AllWordChars(ws[a]))
            && Concat(ws) == WordChars(s)
  {
    WordsFromSpec(s, 0);
    assert s[0..] == s;
  }

  // ------------------------------------------------------------ word frequencies

  /** The words `_word_freqs` leaves out. */
  const StopWords: set<string> :=
    {"a", "an", "the", "and", "or", "but", "if", "then", "than", "so", "because", "while",
     "of", "in", "on", "at", "to", "for", "with", "from", "by", "is", "are", "was", "were",
     "be", "been", "being", "this", "that", "those", "these", "it", "its", "it's", "as",
     "not", "no", "nor", "do", "does", "did", "done", "can", "could", "would", "should",
     "shall", "will", "may", "might", "must", "also", "into", "over", "under", "about",
     "across", "between", "within", "without", "against", "per", "each", "other", "more",
     "most", "some", "any", "few", "many", "such", "own", "same", "just", "very", "via",
     "etc"}

  /** A word that is counted: not a stop word, and at least three characters long. */
  predicate Counted(w: string, stop: set<string>) {
    w !in stop && |w| >= 3
  }

  /** The dictionary the counting loop builds from `words`. */
  function Counts(words: seq<string>, stop: set<string>): Dict<nat> {
    if words == [] then [] else Tallied(Counts(words[..|words| - 1], stop), words[|words| - 1], stop)
  }

  /** One turn of the counting loop: a counted word gets one more. */
  function Tallied(d: Dict<nat>, w: string, stop: set<string>): Dict<nat> {
    if Counted(w, stop) then Put<nat>(d, w, GetOr<nat>(d, w, 0) + 1) else d
  }

  /** The counted words, in order. */
  function CountedWords(words: seq<string>, stop: set<string>): seq<string> {
    if words == [] then []
    else
      var w := words[|words| - 1];
      CountedWords(words[..|words| - 1], stop) + (if Counted(w, stop) then [w] else [])
  }

  /** The loop of `_word_freqs` over a list of words. */
  method CountWords(words: seq<string>, stop: set<string>) returns (freqs: Dict<nat>)
    ensures freqs == Counts(words, stop)
  {
    freqs := [];
    for i := 0 to |words|
      invariant freqs == Counts(words[..i], stop)
    {
      assert words[..i + 1][..i] == words[..i];
      var w := words[i];
      if w in stop || |w| < 3 {
        continue;
      }
      freqs := Put(freqs, w, GetOr(freqs, w, 0) + 1);
    }
    assert words[..|words|] == words;
  }

  /** `_word_freqs(text)`. */
  function Freqs(text: string): Dict<nat> {
    Counts(Words(Lower(text)), StopWords)
  }

  method WordFreqs(text: string) returns (freqs: Dict<nat>)
    ensures freqs == Freqs(text)
  {
    var words := Words(Lower(text));
    freqs := CountWords(words, StopWords);
  }

  // ------------------------------------------------------------ what the counts promise

  /** A counted word maps to the number of times it occurs; every other word is absent. */
  lemma {:induction false} CountsGet(words: seq<string>, stop: set<string>, w: string)
    ensures Get(Counts(words, stop), w) == CountOf(words, stop, w)
    ensures Get(Counts(words, stop), w)
            == if Counted(w, stop) && multiset(words)[w] > 0 then Some(multiset(words)[w]) else None
  {
    if words != [] {
      CountsGet(words[..|words| - 1], stop, w);
      GetStep(words, stop, w);
    }
    OccurrencesMultiset(words, w);
  }

  /** What `Get` gives for `w` on the counts of `words`. */
  function CountOf(words: seq<string>, stop: set<string>, w: string): Option<nat> {
    if Counted(w, stop) && Occurrences(words, w) > 0 then Some(Occurrences(words, w)) else None
  }

  /** Counting one more word keeps `CountOf` right. */
  lemma {:induction false} GetStep(words: seq<string>, stop: set<string>, w: string)
    requires words != []
    requires Get(Counts(words[..|words| - 1], stop), w) == CountOf(words[..|words| - 1], stop, w)
    ensures Get(Counts(words, stop), w) == CountOf(words, stop, w)
  {
    if w == words[|words| - 1] {
      LastWordStep(words, stop);
    } else {
      OtherWordStep(words, stop, w);
    }
  }

  /** The count of the word just taken. */
  lemma {:induction false} LastWordStep(words: seq<string>, stop: set<string>)
    requires words != []
    requires var n := |words| - 1;
             Get(Counts(words[..n], stop), words[n]) == CountOf(words[..n], stop, words[n])
    ensures Get(Counts(words, stop), words[|words| - 1]) == CountOf(words, stop, words[|words| - 1])
  {
    var init, last := words[..|words| - 1], words[|words| - 1];
    var before := Occurrences(init, last);
    assert Occurrences(words, last) == before + 1;
    BumpCount(Counts(init, stop), last, stop, before);
  }

  /** Taking a word whose count was `before` makes it `before + 1`, if it is counted. */
  lemma {:induction false} BumpCount(d: Dict<nat>, last: string, stop: set<string>, before: nat)
    requires Get(d, last) == if Counted(last, stop) && before > 0 then Some(before) else None
    ensures Get(Tallied(d, last, stop), last) == if Counted(last, stop) then Some(before + 1) else None
  {
    GetTallied(d, last, stop, last);
  }

  /** The count of any word other than the one just taken. */
  lemma {:induction false} OtherWordStep(words: seq<string>, stop: set<string>, w: string)
    requires words != [] && w != words[|words| - 1]
    requires Get(Counts(words[..|words| - 1], stop), w) == CountOf(words[..|words| - 1], stop, w)
    ensures Get(Counts(words, stop), w) == CountOf(words, stop, w)
  {
    GetTallied(Counts(words[..|words| - 1], stop), words[|words| - 1], stop, w);
  }

  /** One turn of the count changes only the count of the word it takes, by one. */
  lemma {:induction false} GetTallied(d: Dict<nat>, last: string, stop: set<string>, k: string)
    ensures Counted(last, stop) && k == last ==> Get(Tallied(d, last, stop), k) == Some(GetOr<nat>(d, last, 0) + 1)
    ensures !(Counted(last, stop) && k == last) ==> Get(Tallied(d, last, stop), k) == Get(d, k)
  {
    if Counted(last, stop) {
      var v: nat := GetOr<nat>(d, last, 0) + 1;
      assert Tallied(d, last, stop) == Put<nat>(d, last, v);
      GetPut<nat>(d, last, v, k);
    }
  }

  /** How often `w` occurs in `words`. */
  function Occurrences(words: seq<string>, w: string): nat {
    if words == [] then 0
    else Occurrences(words[..|words| - 1], w) + if words[|words| - 1] == w then 1 else 0
  }

  /** The occurrences are the multiplicity of `w` in the multiset of the words. */
  lemma {:induction false} OccurrencesMultiset(words: seq<string>, w: string)
    ensures Occurrences(words, w) == multiset(words)[w]
  {
    if words != [] {
      var n := |words| - 1;
      OccurrencesMultiset(words[..n], w);
      assert words == words[..n] + [words[n]];
      assert multiset(words) == multiset(words[..n]) + multiset{words[n]};
    }
  }

  /** A counting dictionary with unique keys, counts of at least one, and `n` in all. */
  predicate Tally(d: Dict<nat>, n: nat) {
    UniqueKeys(d) && Positive(d) && SumValues(d) == n
  }

  /** Keys are unique, every count is at least one, and the counts add up to the number
      of counted words. */
  lemma {:induction false} CountsTotal(words: seq<string>, stop: set<string>)
    ensures Tally(Counts(words, stop), |CountedWords(words, stop)|)
  {
    if words != [] {
      var init, last := words[..|words| - 1], words[|words| - 1];
      CountsTotal(init, stop);
      TallyStep(Counts(init, stop), |CountedWords(init, stop)|, last, stop);
    }
  }

  /** One more word keeps the tally, one higher when the word is counted. */
  lemma {:induction false} TallyStep(d: Dict<nat>, n: nat, w: string, stop: set<string>)
    requires Tally(d, n)
    ensures Tally(Tallied(d, w, stop), n + if Counted(w, stop) then 1 else 0)
  {
    if Counted(w, stop) {
      var v: nat := GetOr<nat>(d, w, 0) + 1;
      PutUnique<nat>(d, w, v);
      PutPositive(d, w, v);
      SumValuesIncrement(d, w);
    }
  }

  /** `_word_freqs` counts each word of at least three characters that is not a stop
      word, and only those: every count is at least one, and the counts add up to the
      number of such words in the lowercased text. */
  lemma {:induction false} FreqsSpec(text: string, w: string)
    ensures var d, ws := Freqs(text), Words(Lower(text));
            Tally(d, |CountedWords(ws, StopWords)|)
            && Get(d, w) == CountOf(ws, StopWords, w)
  {
    var ws := Words(Lower(text));
    CountsTotal(ws, StopWords);
    CountsGet(ws, StopWords, w);
  }

  // ------------------------------------------------------------ the summary

  /** What `extractive_summary` returns for an empty text. */
  const NoContent: string := "(No content to summarize)"

  /** `sum(freqs.get(w, 0) for w in words)`. */
  function WeightSum(freqs: Dict<nat>, words: seq<string>): nat {
    if words == [] then 0 else GetOr<nat>(freqs, words[0], 0) + WeightSum(freqs, words[1..])
  }

  /** The score of a sentence: the frequencies of its words, summed, over one more than
      the number of its words. */
  function Score(freqs: Dict<nat>, s: string): (r: real)
    ensures r >= 0.0
  {
    var words := Words(Lower(s));
    WeightSum(freqs, words) as real / (1 + |words|) as real
  }

  /** The score of every sentence, in order. */
  function Scores(freqs: Dict<nat>, sents: seq<string>): (r: seq<real>)
    ensures |r| == |sents| && forall i :: 0 <= i < |sents| ==> r[i] == Score(freqs, sents[i])
  {
    seq(|sents|, i requires 0 <= i < |sents| => Score(freqs, sents[i]))
  }

  /** The length of Python's `xs[:m]` for a list of length `n`: a negative `m` counts
      from the end. */
  function PrefixLength(n: nat, m: int): (k: nat)
    ensures k <= n
    ensures 0 <= m ==> k == if m < n then m else n
  {
    if m >= 0 then (if m < n then m else n) else if n + m > 0 then n + m else 0
  }

  /** The positions `extractive_summary` keeps when there are more sentences than
      `m`: ranked by `scored.sort(reverse=True)` on `(score, index, sentence)` tuples,
      cut to the first `m`, and put back in index order. */
  function Chosen(scores: seq<real>, m: int): (p: seq<int>)
    ensures ValidIndices(scores, p)
  {
    var ranked := Sort(scores, KeyDescIndexDesc, Range(|scores|));
    Sort(scores, IndexAsc, ranked[..PrefixLength(|scores|, m)])
  }

  /** The sentences at positions `p`, in that order. */
  function Select(sents: seq<string>, p: seq<int>): (r: seq<string>)
    requires forall a :: 0 <= a < |p| ==> 0 <= p[a] < |sents|
    ensures |r| == |p| && forall a :: 0 <= a < |p| ==> r[a] == sents[p[a]]
  {
    seq(|p|, a requires 0 <= a < |p| => sents[p[a]])
  }

  /** The loop of `extractive_summary` that scores each sentence. */
  method ScoreSentences(freqs: Dict<nat>, sents: seq<string>) returns (scores: seq<real>)
    ensures scores == Scores(freqs, sents)
  {
    scores := [];
    for i := 0 to |sents|
      invariant |scores| == i && forall a :: 0 <= a < i ==> scores[a] == Score(freqs, sents[a])
    {
      var words := Words(Lower(sents[i]));
      var score := WeightSum(freqs, words) as real / (1 + |words|) as real;
      scores := scores + [score];
    }
  }

  /** `scored.sort(reverse=True)`, then `sorted(scored[:m], key=lambda x: x[1])`, on the
      positions of the scored sentences. */
  method RankSentences(scores: seq<real>, m: int) returns (top: seq<int>)
    ensures ValidIndices(scores, top) && TopInOrder(scores, PrefixLength(|scores|, m), top)
    ensures top == Chosen(scores, m)
  {
    var ranked := Sort(scores, KeyDescIndexDesc, Range(|scores|));
    top := Sort(scores, IndexAsc, ranked[..PrefixLength(|scores|, m)]);
    ChosenTop(scores, m);
  }

  /** `extractive_summary(text, max_sentences)`. */
  function Summary(text: string, m: int): string {
    if text == [] then NoContent
    else
      var sents := SplitSentences(text);
      if |sents| <= m then Join(sents, " ")
      else Join(Select(sents, Chosen(Scores(Freqs(text), sents), m)), " ")
  }

  method ExtractiveSummary(text: string, maxSentences: int) returns (summary: string)
    ensures text == [] ==> summary == NoContent
    ensures text != [] && |SplitSentences(text)| <= maxSentences ==> summary == Join(SplitSentences(text), " ")
    ensures summary == Summary(text, maxSentences)
  {
    if text == [] {
      return NoContent;
    }
    var sents := SplitSentences(text);
    if |sents| <= maxSentences {
      return Join(sents, " ");
    }
    var freqs := WordFreqs(text);
    var scores := ScoreSentences(freqs, sents);
    var top := RankSentences(scores, maxSentences);
    summary := Join(Select(sents, top), " ");
  }

  // ------------------------------------------------------------ what the summary promises

  /** `p` lists `k` positions in increasing order, and each ranks above every position
      left out: a higher score, or the same score and a later position. */
  predicate TopInOrder(scores: seq<real>, k: nat, p: seq<int>)
    requires ValidIndices(scores, p)
  {
    |p| == k
    && (forall a, b :: 0 <= a < b < |p| ==> p[a] < p[b])
    && (forall a, j :: 0 <= a < |p| && 0 <= j < |scores| && j !in p ==>
          Before(scores, KeyDescIndexDesc, p[a], j))
  }

  /** A list sorted by a strict order holds no position twice. */
  lemma {:induction false} SortedDistinct(keys: seq<real>, o: Order, xs: seq<int>)
    requires ValidIndices(keys, xs) && SortedBy(keys, o, xs)
    ensures Distinct(xs)
  {
    forall a, b | 0 <= a < b < |xs| ensures xs[a] != xs[b] {
      assert Before(keys, o, xs[a], xs[b]);
    }
  }

  lemma {:induction false} RangeDistinct(n: nat)
    ensures Distinct(Range(n))
  {
  }

  /** The summary keeps `m` sentences, or all but `-m` of them for a negative `m`: the
      best-ranked ones, in their original order. */
  lemma {:induction false} ChosenTop(scores: seq<real>, m: int)
    ensures TopInOrder(scores, PrefixLength(|scores|, m), Chosen(scores, m))
  {
    var n := |scores|;
    var k := PrefixLength(n, m);
    RangeDistinct(n);
    var ranked := Sort(scores, KeyDescIndexDesc, Range(n));
    SortSorted(scores, KeyDescIndexDesc, Range(n));
    SortedDistinct(scores, KeyDescIndexDesc, ranked);
    var prefix := ranked[..k];
    assert Distinct(prefix);
    var top := Sort(scores, IndexAsc, prefix);
    SortSorted(scores, IndexAsc, prefix);
    forall a, j | 0 <= a < |top| && 0 <= j < n && j !in top
      ensures Before(scores, KeyDescIndexDesc, top[a], j)
    {
      RankedBefore(scores, ranked, k, top, a, j);
    }
  }

  /** A position of the sorted prefix ranks above a position left out of it. */
  lemma {:induction false} RankedBefore(scores: seq<real>, ranked: seq<int>, k: nat, top: seq<int>, a: nat, j: int)
    requires ranked == Sort(scores, KeyDescIndexDesc, Range(|scores|))
    requires ValidIndices(scores, ranked) && SortedBy(scores, KeyDescIndexDesc, ranked)
    requires k <= |ranked| && multiset(top) == multiset(ranked[..k]) && ValidIndices(scores, top)
    requires a < |top| && 0 <= j < |scores| && j !in top
    ensures Before(scores, KeyDescIndexDesc, top[a], j)
  {
    var prefix := ranked[..k];
    assert top[a] in multiset(prefix);
    var b :| 0 <= b < k && prefix[b] == top[a];
    assert j in multiset(Range(|scores|)) by { assert Range(|scores|)[j] == j; }
    var c :| 0 <= c < |ranked| && ranked[c] == j;
    assert j !in multiset(top);
    assert j !in prefix;
    assert forall i :: 0 <= i < k ==> prefix[i] == ranked[i];
    assert !(c < k);
  }

  /** With more sentences than `m`, the summary joins the best-ranked sentences, as many
      as `text_sentences[:m]` would hold, in their original order. */
  lemma {:induction false} SummaryPicks(text: string, m: int)
    requires text != [] && m < |SplitSentences(text)|
    ensures var sents := SplitSentences(text);
            var scores := Scores(Freqs(text), sents);
            var p := Chosen(scores, m);
            Summary(text, m) == Join(Select(sents, p), " ")
            && TopInOrder(scores, PrefixLength(|sents|, m), p)
  {
    var sents := SplitSentences(text);
    ChosenTop(Scores(Freqs(text), sents), m);
  }

  // ------------------------------------------------------------ the fallback's budget

  /** The words of an instruction that ask for a longer summary. */
  const DetailHints: seq<string> := ["detailed", "comprehensive", "bullet", "points"]

  /** `max_sents` in `generate_summary`'s fallback; a missing instruction reads as `""`. */
  function MaxSents(instruction: Option<string>): (n: nat)
    ensures n == 10 || n == 6
  {
    var instr := Lower(if instruction.Some? then instruction.value else "");
    if ContainsAnyText(instr, DetailHints) then 10 else 6
  }

  /** Ten sentences exactly when the lowercased instruction contains one of the hints. */
  lemma {:induction false} MaxSentsHint(instruction: string)
    ensures MaxSents(Some(instruction)) == 10 <==> exists k :: k in DetailHints && Contains(Lower(instruction), k)
    ensures MaxSents(None) == 6
  {
    var e: string := [];
    assert Lower(e) == [];
    assert !Contains(e, "detailed") && !Contains(e, "comprehensive") && !Contains(e, "bullet") && !Contains(e, "points");
  }

  /** Case does not matter to the budget. */
  lemma {:induction false} MaxSentsIgnoresCase(instruction: string)
    ensures MaxSents(Some(Lower(instruction))) == MaxSents(Some(instruction))
  {
    LowerIdempotent(instruction);
  }

  /** The summary `generate_summary` returns when the language model fails. */
  function FallbackSummary(rawText: string, instruction: Option<string>): string {
    Summary(rawText, MaxSents(instruction))
  }

  /** A document with more sentences than the budget gets exactly the budget, 6 or 10
      sentences, in their original order. */
  lemma {:induction false} FallbackPicks(rawText: string, instruction: Option<string>)
    requires rawText != [] && MaxSents(instruction) < |SplitSentences(rawText)|
    ensures var sents, n := SplitSentences(rawText), MaxSents(instruction);
            var scores := Scores(Freqs(rawText), sents);
            var p := Chosen(scores, n);
            FallbackSummary(rawText, instruction) == Join(Select(sents, p), " ")
            && (n == 6 || n == 10) && TopInOrder(scores, n, p)
  {
    SummaryPicks(rawText, MaxSents(instruction));
  }
}
