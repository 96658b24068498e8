/** `transliterate`, the fallback nested in `offline_translate`
    (clearclause-legal-assistant/backend/legal_processor.py): a lowercased word rewritten
    syllable by syllable into Devanagari or Kannada, longest consonant first, a consonant
    taking the vowel sign that follows it. */
module Transliteration {
  import opened Wrappers
  import opened Text
  import opened Dict

  /** The three tables of one script: consonants, the vowel signs a consonant takes, and
      the letters of vowels that stand alone. */
  datatype Script = Script(consonants: Dict<string>, marks: Dict<string>, vowels: Dict<string>)

  // the tables `dev_cons`, `dev_vowel_marks` and `dev_vowels`

  const DevanagariConsonants: Dict<string> :=
    [
     ("k", "\U{915}"), ("kh", "\U{916}"), ("g", "\U{917}"), ("gh", "\U{918}"),
     ("ch", "\U{91A}"), ("chh", "\U{91B}"), ("j", "\U{91C}"), ("jh", "\U{91D}"),
     ("t", "\U{924}"), ("th", "\U{925}"), ("d", "\U{926}"), ("dh", "\U{927}"),
     ("n", "\U{928}"), ("p", "\U{92A}"), ("ph", "\U{92B}"), ("b", "\U{92C}"),
     ("bh", "\U{92D}"), ("m", "\U{92E}"), ("y", "\U{92F}"), ("r", "\U{930}"),
     ("l", "\U{932}"), ("v", "\U{935}"), ("w", "\U{935}"), ("sh", "\U{936}"),
     ("s", "\U{938}"), ("h", "\U{939}"), ("c", "\U{915}"), ("f", "\U{92B}"),
     ("q", "\U{915}"), ("x", "\U{915}\U{94D}\U{938}"), ("z", "\U{91C}")
    ]

  const DevanagariMarks: Dict<string> :=
    [
     ("a", ""), ("aa", "\U{93E}"), ("i", "\U{93F}"), ("ii", "\U{940}"),
     ("u", "\U{941}"), ("uu", "\U{942}"), ("e", "\U{947}"), ("ai", "\U{948}"),
     ("o", "\U{94B}"), ("au", "\U{94C}")
    ]

  const DevanagariVowels: Dict<string> :=
    [
     ("a", "\U{905}"), ("aa", "\U{906}"), ("i", "\U{907}"), ("ii", "\U{908}"),
     ("u", "\U{909}"), ("uu", "\U{90A}"), ("e", "\U{90F}"), ("ai", "\U{910}"),
     ("o", "\U{913}"), ("au", "\U{914}")
    ]

  // the tables `kn_cons`, `kn_vowel_marks` and `kn_vowels`

  const KannadaConsonants: Dict<string> :=
    [
     ("k", "\U{C95}"), ("kh", "\U{C96}"), ("g", "\U{C97}"), ("gh", "\U{C98}"),
     ("ch", "\U{C9A}"), ("chh", "\U{C9B}"), ("j", "\U{C9C}"), ("jh", "\U{C9D}"),
     ("t", "\U{CA4}"), ("th", "\U{CA5}"), ("d", "\U{CA6}"), ("dh", "\U{CA7}"),
     ("n", "\U{CA8}"), ("p", "\U{CAA}"), ("ph", "\U{CAB}"), ("b", "\U{CAC}"),
     ("bh", "\U{CAD}"), ("m", "\U{CAE}"), ("y", "\U{CAF}"), ("r", "\U{CB0}"),
     ("l", "\U{CB2}"), ("v", "\U{CB5}"), ("w", "\U{CB5}"), ("sh", "\U{CB6}"),
     ("s", "\U{CB8}"), ("h", "\U{CB9}"), ("c", "\U{C95}"), ("f", "\U{CAB}"),
     ("q", "\U{C95}"), ("x", "\U{C95}\U{CCD}\U{CB8}\U{CCD}"), ("z", "\U{C9C}")
    ]

  const KannadaMarks: Dict<string> :=
    [
     ("a", ""), ("aa", "\U{CBE}"), ("i", "\U{CBF}"), ("ii", "\U{CC0}"),
     ("u", "\U{CC1}"), ("uu", "\U{CC2}"), ("e", "\U{CC6}"), ("ai", "\U{CC8}"),
     ("o", "\U{CCA}"), ("au", "\U{CCC}")
    ]

  const KannadaVowels: Dict<string> :=
    [
     ("a", "\U{C85}"), ("aa", "\U{C86}"), ("i", "\U{C87}"), ("ii", "\U{C88}"),
     ("u", "\U{C89}"), ("uu", "\U{C8A}"), ("e", "\U{C8E}"), ("ai", "\U{C90}"),
     ("o", "\U{C92}"), ("au", "\U{C94}")
    ]

  const Devanagari: Script := Script(DevanagariConsonants, DevanagariMarks, DevanagariVowels)
  const Kannada: Script := Script(KannadaConsonants, KannadaMarks, KannadaVowels)

  /** The tables `transliterate` picks: Devanagari for exactly `"Hindi"`, Kannada for any
      other language name. */
  function ScriptFor(targetLanguage: string): Script {
    if targetLanguage == "Hindi" then Devanagari else Kannada
  }

  /** `d[k]` for a key that is present. */
  function Lookup(d: Dict<string>, k: string): (v: string)
    requires k in Keys(d)
    ensures exists i :: 0 <= i < |d| && d[i] == (k, v)
  {
    Get(d, k).value
  }

  /** One output piece and the index the scan resumes at. */
  datatype Piece = Piece(text: string, next: nat)

  /** The consonant `w[i..i+n]` and the vowel sign after it: a two-letter sign if one
      follows, else a one-letter sign, else none. */
  function Syllable(w: string, i: nat, n: nat, sc: Script): (p: Piece)
    requires 1 <= n && i + n <= |w| && w[i..i + n] in Keys(sc.consonants)
    ensures i + n <= p.next <= i + n + 2 && p.next <= |w|
  {
    var c := Lookup(sc.consonants, w[i..i + n]);
    var at := i + n;
    if at + 1 < |w| && w[at..at + 2] in Keys(sc.marks) then Piece(c + Lookup(sc.marks, w[at..at + 2]), at + 2)
    else if at < |w| && w[at..at + 1] in Keys(sc.marks) then Piece(c + Lookup(sc.marks, w[at..at + 1]), at + 1)
    else Piece(c, at)
  }

  /** One turn of the loop at index `i`: a consonant of three, two or one letters, else a
      standalone vowel of two or one letters, else the character itself. `transliterate` takes
      the two-letter slices only when both letters are there; since no table has the
      empty key, each guard below is its `in` test. */
  function StepAt(w: string, i: nat, sc: Script): (p: Piece)
    requires i < |w|
    ensures i < p.next <= i + 5 && p.next <= |w|
  {
    if i + 2 < |w| && w[i..i + 3] in Keys(sc.consonants) then Syllable(w, i, 3, sc)
    else if i + 1 < |w| && w[i..i + 2] in Keys(sc.consonants) then Syllable(w, i, 2, sc)
    else if w[i..i + 1] in Keys(sc.consonants) then Syllable(w, i, 1, sc)
    else if i + 1 < |w| && w[i..i + 2] in Keys(sc.vowels) then Piece(Lookup(sc.vowels, w[i..i + 2]), i + 2)
    else if w[i..i + 1] in Keys(sc.vowels) then Piece(Lookup(sc.vowels, w[i..i + 1]), i + 1)
    else Piece(w[i..i + 1], i + 1)
  }

  /** The output of the loop from index `i` on. */
  function From(w: string, i: nat, sc: Script): string
    decreases |w| - i
  {
    if i >= |w| then [] else var p := StepAt(w, i, sc); p.text + From(w, p.next, sc)
  }

  /** `transliterate(word)` under `target_language`. */
  function Transliterated(word: string, targetLanguage: string): string {
    From(Lower(word), 0, ScriptFor(targetLanguage))
  }

  /** `transliterate(word)`: the tables picked by language, then the scan. */
  method Transliterate(word: string, targetLanguage: string) returns (r: string)
    ensures r == Transliterated(word, targetLanguage)
  {
    r := Scan(Lower(word), ScriptFor(targetLanguage));
  }

  /** The `while` loop of `transliterate` over the lowercased word `w`, appending one
      piece per turn to `out`. */
  method Scan(w: string, sc: Script) returns (r: string)
    ensures r == From(w, 0, sc)
  {
    var out: seq<string> := [];
    ghost var done: string := [];
    var i: nat := 0;
    while i < |w|
      invariant i <= |w|
      invariant Concat(out) == done
      invariant done + From(w, i, sc) == From(w, 0, sc)
      decreases |w| - i
    {
      var p := NextPiece(w, i, sc);
      FromStep(w, i, sc);
      assert done + From(w, i, sc) == (done + p.text) + From(w, p.next, sc);
      ConcatAppend(out, p.text);
      out := out + [p.text];
      done := done + p.text;
      i := p.next;
    }
    r := Concat(out);
  }

  /** The output from `i` is the piece at `i` followed by the output from where that
      piece ends. */
  lemma {:induction false} FromStep(w: string, i: nat, sc: Script)
    requires i < |w|
    ensures var p := StepAt(w, i, sc); From(w, i, sc) == p.text + From(w, p.next, sc)
  {
  }

  /** The body of one turn: the `if` chain that picks the piece at `i` and where `i`
      moves to (each `continue` of `transliterate` ends one branch). */
  method NextPiece(w: string, i: nat, sc: Script) returns (p: Piece)
    requires i < |w|
    ensures i < p.next <= i + 5 && p.next <= |w|
    ensures p == StepAt(w, i, sc)
  {
    if i + 2 < |w| && w[i..i + 3] in Keys(sc.consonants) {
      p := Syllable(w, i, 3, sc);
    } else if i + 1 < |w| && w[i..i + 2] in Keys(sc.consonants) {
      p := Syllable(w, i, 2, sc);
    } else if w[i..i + 1] in Keys(sc.consonants) {
      p := Syllable(w, i, 1, sc);
    } else if i + 1 < |w| && w[i..i + 2] in Keys(sc.vowels) {
      p := Piece(Lookup(sc.vowels, w[i..i + 2]), i + 2);
    } else if w[i..i + 1] in Keys(sc.vowels) {
      p := Piece(Lookup(sc.vowels, w[i..i + 1]), i + 1);
    } else {
      p := Piece(w[i..i + 1], i + 1);
    }
  }

  // ------------------------------------------------------------ what the loop promises

  /** Consonants are matched longest first: when `w[i..i+n]` is a consonant and no longer
      one (up to three letters) starts at `i`, the piece is that consonant's letter with
      the sign after it, and the scan moves past the consonant and the sign. */
  lemma {:induction false} LongestConsonant(w: string, i: nat, n: nat, sc: Script)
    requires 1 <= n <= 3 && i + n <= |w| && w[i..i + n] in Keys(sc.consonants)
    requires n < 3 && i + 2 < |w| ==> w[i..i + 3] !in Keys(sc.consonants)
    requires n < 2 && i + 1 < |w| ==> w[i..i + 2] !in Keys(sc.consonants)
    ensures var p, c := StepAt(w, i, sc), Lookup(sc.consonants, w[i..i + n]);
            p == Syllable(w, i, n, sc) && StartsWith(p.text, c) && i + n <= p.next <= i + n + 2
  {
  }

  /** After a consonant the two-letter vowel sign wins over the one-letter sign: each
      shape of what follows, and how far the scan moves. */
  lemma {:induction false} VowelSignPreferred(w: string, i: nat, n: nat, sc: Script)
    requires 1 <= n && i + n <= |w| && w[i..i + n] in Keys(sc.consonants)
    ensures var p, c, at := Syllable(w, i, n, sc), Lookup(sc.consonants, w[i..i + n]), i + n;
            (at + 1 < |w| && w[at..at + 2] in Keys(sc.marks) ==>
               p == Piece(c + Lookup(sc.marks, w[at..at + 2]), at + 2))
            && (!(at + 1 < |w| && w[at..at + 2] in Keys(sc.marks)) && at < |w| && w[at..at + 1] in Keys(sc.marks) ==>
                  p == Piece(c + Lookup(sc.marks, w[at..at + 1]), at + 1))
            && (p.next == at <==> !(at + 1 < |w| && w[at..at + 2] in Keys(sc.marks)) && !(at < |w| && w[at..at + 1] in Keys(sc.marks)))
  {
  }

  /** Every key of the table starts with a lowercase ASCII letter. */
  predicate KeysLatin(d: Dict<string>) {
    forall i :: 0 <= i < |d| ==> |d[i].0| >= 1 && 'a' <= d[i].0[0] <= 'z'
  }

  /** No value of the table holds an ASCII letter. */
  predicate ValuesNonLatin(d: Dict<string>) {
    forall i :: 0 <= i < |d| ==> NoAsciiLetter(d[i].1)
  }

  /** Every lowercase letter is a one-letter consonant or a one-letter vowel. */
  predicate CoversLetters(sc: Script) {
    forall c: char :: 'a' <= c <= 'z' ==> [c] in Keys(sc.consonants) || [c] in Keys(sc.vowels)
  }

  /** What the loop needs of a script. */
  predicate WellFormed(sc: Script) {
    KeysLatin(sc.consonants) && KeysLatin(sc.vowels)
    && ValuesNonLatin(sc.consonants) && ValuesNonLatin(sc.marks) && ValuesNonLatin(sc.vowels)
    && CoversLetters(sc)
  }

  /** A string that does not start with a lowercase letter is no key of the table. */
  lemma {:induction false} NotAKey(d: Dict<string>, k: string)
    requires KeysLatin(d) && (|k| == 0 || !('a' <= k[0] <= 'z'))
    ensures k !in Keys(d)
  {
    var ks := Keys(d);
    forall i | 0 <= i < |ks| ensures ks[i] != k {
      assert ks[i] == d[i].0;
    }
  }

  lemma {:induction false} LookupNonLatin(d: Dict<string>, k: string)
    requires ValuesNonLatin(d) && k in Keys(d)
    ensures NoAsciiLetter(Lookup(d, k))
  {
    var i :| 0 <= i < |d| && d[i] == (k, Lookup(d, k));
    assert d[i].1 == Lookup(d, k);
  }

  /** A character that no key starts with is copied: on a stretch without lowercase
      letters the loop gives the stretch back unchanged. */
  lemma {:induction false} CopiesNonLetters(w: string, i: nat, sc: Script)
    requires KeysLatin(sc.consonants) && KeysLatin(sc.vowels)
    requires forall j :: i <= j < |w| ==> !('a' <= w[j] <= 'z')
    ensures i <= |w| ==> From(w, i, sc) == w[i..]
    decreases |w| - i
  {
    if i < |w| {
      NotAKey(sc.consonants, w[i..i + 1]);
      NotAKey(sc.vowels, w[i..i + 1]);
      if i + 1 < |w| {
        NotAKey(sc.consonants, w[i..i + 2]);
        NotAKey(sc.vowels, w[i..i + 2]);
      }
      if i + 2 < |w| {
        NotAKey(sc.consonants, w[i..i + 3]);
      }
      assert StepAt(w, i, sc) == Piece(w[i..i + 1], i + 1);
      CopiesNonLetters(w, i + 1, sc);
      assert w[i..] == w[i..i + 1] + w[i + 1..];
    }
  }

  /** One piece of a lowercased word holds no ASCII letter: letters are all in the
      tables, and the tables hold none. */
  lemma {:induction false} StepNonLatin(w: string, i: nat, sc: Script)
    requires WellFormed(sc) && i < |w| && !('A' <= w[i] <= 'Z')
    ensures NoAsciiLetter(StepAt(w, i, sc).text)
  {
    var p := StepAt(w, i, sc);
    if i + 2 < |w| && w[i..i + 3] in Keys(sc.consonants) {
      SyllableNonLatin(w, i, 3, sc);
    } else if i + 1 < |w| && w[i..i + 2] in Keys(sc.consonants) {
      SyllableNonLatin(w, i, 2, sc);
    } else if w[i..i + 1] in Keys(sc.consonants) {
      SyllableNonLatin(w, i, 1, sc);
    } else if i + 1 < |w| && w[i..i + 2] in Keys(sc.vowels) {
      LookupNonLatin(sc.vowels, w[i..i + 2]);
    } else if w[i..i + 1] in Keys(sc.vowels) {
      LookupNonLatin(sc.vowels, w[i..i + 1]);
    } else {
      CopiedNonLatin(w, i, sc);
    }
  }

  /** The character the loop copies is no letter: every lowercase letter is in a table. */
  lemma {:induction false} CopiedNonLatin(w: string, i: nat, sc: Script)
    requires CoversLetters(sc) && i < |w| && !('A' <= w[i] <= 'Z')
    requires w[i..i + 1] !in Keys(sc.consonants) && w[i..i + 1] !in Keys(sc.vowels)
    ensures NoAsciiLetter(w[i..i + 1])
  {
    var c := w[i];
    assert w[i..i + 1] == [c];
    assert 'a' <= c <= 'z' ==> [c] in Keys(sc.consonants) || [c] in Keys(sc.vowels);
  }

  lemma {:induction false} SyllableNonLatin(w: string, i: nat, n: nat, sc: Script)
    requires WellFormed(sc) && 1 <= n && i + n <= |w| && w[i..i + n] in Keys(sc.consonants)
    ensures NoAsciiLetter(Syllable(w, i, n, sc).text)
  {
    var c := Lookup(sc.consonants, w[i..i + n]);
    LookupNonLatin(sc.consonants, w[i..i + n]);
    var at := i + n;
    if at + 1 < |w| && w[at..at + 2] in Keys(sc.marks) {
      LookupNonLatin(sc.marks, w[at..at + 2]);
      NoAsciiLetterConcat(c, Lookup(sc.marks, w[at..at + 2]));
    } else if at < |w| && w[at..at + 1] in Keys(sc.marks) {
      LookupNonLatin(sc.marks, w[at..at + 1]);
      NoAsciiLetterConcat(c, Lookup(sc.marks, w[at..at + 1]));
    }
  }

  lemma {:induction false} FromNonLatin(w: string, i: nat, sc: Script)
    requires WellFormed(sc) && forall j :: 0 <= j < |w| ==> !('A' <= w[j] <= 'Z')
    ensures NoAsciiLetter(From(w, i, sc))
    decreases |w| - i
  {
    if i < |w| {
      var p := StepAt(w, i, sc);
      StepNonLatin(w, i, sc);
      FromNonLatin(w, p.next, sc);
      NoAsciiLetterConcat(p.text, From(w, p.next, sc));
    }
  }

  // ------------------------------------------------------------ the two scripts

  lemma {:induction false} KeyAt(d: Dict<string>, i: nat, k: string)
    requires i < |d| && d[i].0 == k
    ensures k in Keys(d)
  {
    assert Keys(d)[i] == k;
  }

  lemma {:induction false} DevanagariKeys()
    ensures KeysLatin(DevanagariConsonants) && KeysLatin(DevanagariVowels)
  {
  }

  lemma {:induction false} DevanagariConsonantValues()
    ensures ValuesNonLatin(DevanagariConsonants)
  {
    var d := DevanagariConsonants;
    assert forall i :: 0 <= i < 16 ==> NoAsciiLetter(d[i].1);
    assert forall i :: 16 <= i < |d| ==> NoAsciiLetter(d[i].1);
  }

  lemma {:induction false} DevanagariSignValues()
    ensures ValuesNonLatin(DevanagariMarks) && ValuesNonLatin(DevanagariVowels)
  {
  }

  lemma {:induction false} KannadaKeys()
    ensures KeysLatin(KannadaConsonants) && KeysLatin(KannadaVowels)
  {
  }

  lemma {:induction false} KannadaConsonantValues()
    ensures ValuesNonLatin(KannadaConsonants)
  {
    var d := KannadaConsonants;
    assert forall i :: 0 <= i < 16 ==> NoAsciiLetter(d[i].1);
    assert forall i :: 16 <= i < |d| ==> NoAsciiLetter(d[i].1);
  }

  lemma {:induction false} KannadaSignValues()
    ensures ValuesNonLatin(KannadaMarks) && ValuesNonLatin(KannadaVowels)
  {
  }

  lemma {:induction false} DevanagariCoversLetters(c: char)
    requires 'a' <= c <= 'z'
    ensures [c] in Keys(DevanagariConsonants) || [c] in Keys(DevanagariVowels)
  {
    if c == 'a' { KeyAt(DevanagariVowels, 0, "a"); }
    else if c == 'b' { KeyAt(DevanagariConsonants, 15, "b"); }
    else if c == 'c' { KeyAt(DevanagariConsonants, 26, "c"); }
    else if c == 'd' { KeyAt(DevanagariConsonants, 10, "d"); }
    else if c == 'e' { KeyAt(DevanagariVowels, 6, "e"); }
    else if c == 'f' { KeyAt(DevanagariConsonants, 27, "f"); }
    else if c == 'g' { KeyAt(DevanagariConsonants, 2, "g"); }
    else if c == 'h' { KeyAt(DevanagariConsonants, 25, "h"); }
    else if c == 'i' { KeyAt(DevanagariVowels, 2, "i"); }
    else if c == 'j' { KeyAt(DevanagariConsonants, 6, "j"); }
    else if c == 'k' { KeyAt(DevanagariConsonants, 0, "k"); }
    else if c == 'l' { KeyAt(DevanagariConsonants, 20, "l"); }
    else if c == 'm' { KeyAt(DevanagariConsonants, 17, "m"); }
    else if c == 'n' { KeyAt(DevanagariConsonants, 12, "n"); }
    else if c == 'o' { KeyAt(DevanagariVowels, 8, "o"); }
    else if c == 'p' { KeyAt(DevanagariConsonants, 13, "p"); }
    else if c == 'q' { KeyAt(DevanagariConsonants, 28, "q"); }
    else if c == 'r' { KeyAt(DevanagariConsonants, 19, "r"); }
    else if c == 's' { KeyAt(DevanagariConsonants, 24, "s"); }
    else if c == 't' { KeyAt(DevanagariConsonants, 8, "t"); }
    else if c == 'u' { KeyAt(DevanagariVowels, 4, "u"); }
    else if c == 'v' { KeyAt(DevanagariConsonants, 21, "v"); }
    else if c == 'w' { KeyAt(DevanagariConsonants, 22, "w"); }
    else if c == 'x' { KeyAt(DevanagariConsonants, 29, "x"); }
    else if c == 'y' { KeyAt(DevanagariConsonants, 18, "y"); }
    else { assert c == 'z'; KeyAt(DevanagariConsonants, 30, "z"); }
  }

  lemma {:induction false} KannadaCoversLetters(c: char)
    requires 'a' <= c <= 'z'
    ensures [c] in Keys(KannadaConsonants) || [c] in Keys(KannadaVowels)
  {
    if c == 'a' { KeyAt(KannadaVowels, 0, "a"); }
    else if c == 'b' { KeyAt(KannadaConsonants, 15, "b"); }
    else if c == 'c' { KeyAt(KannadaConsonants, 26, "c"); }
    else if c == 'd' { KeyAt(KannadaConsonants, 10, "d"); }
    else if c == 'e' { KeyAt(KannadaVowels, 6, "e"); }
    else if c == 'f' { KeyAt(KannadaConsonants, 27, "f"); }
    else if c == 'g' { KeyAt(KannadaConsonants, 2, "g"); }
    else if c == 'h' { KeyAt(KannadaConsonants, 25, "h"); }
    else if c == 'i' { KeyAt(KannadaVowels, 2, "i"); }
    else if c == 'j' { KeyAt(KannadaConsonants, 6, "j"); }
    else if c == 'k' { KeyAt(KannadaConsonants, 0, "k"); }
    else if c == 'l' { KeyAt(KannadaConsonants, 20, "l"); }
    else if c == 'm' { KeyAt(KannadaConsonants, 17, "m"); }
    else if c == 'n' { KeyAt(KannadaConsonants, 12, "n"); }
    else if c == 'o' { KeyAt(KannadaVowels, 8, "o"); }
    else if c == 'p' { KeyAt(KannadaConsonants, 13, "p"); }
    else if c == 'q' { KeyAt(KannadaConsonants, 28, "q"); }
    else if c == 'r' { KeyAt(KannadaConsonants, 19, "r"); }
    else if c == 's' { KeyAt(KannadaConsonants, 24, "s"); }
    else if c == 't' { KeyAt(KannadaConsonants, 8, "t"); }
    else if c == 'u' { KeyAt(KannadaVowels, 4, "u"); }
    else if c == 'v' { KeyAt(KannadaConsonants, 21, "v"); }
    else if c == 'w' { KeyAt(KannadaConsonants, 22, "w"); }
    else if c == 'x' { KeyAt(KannadaConsonants, 29, "x"); }
    else if c == 'y' { KeyAt(KannadaConsonants, 18, "y"); }
    else { assert c == 'z'; KeyAt(KannadaConsonants, 30, "z"); }
  }

  /** Both scripts meet what the loop needs. */
  lemma {:induction false} ScriptWellFormed(targetLanguage: string)
    ensures WellFormed(ScriptFor(targetLanguage))
  {
    if targetLanguage == "Hindi" {
      DevanagariKeys();
      DevanagariConsonantValues();
      DevanagariSignValues();
      forall c: char | 'a' <= c <= 'z'
        ensures [c] in Keys(DevanagariConsonants) || [c] in Keys(DevanagariVowels)
      {
        DevanagariCoversLetters(c);
      }
    } else {
      KannadaKeys();
      KannadaConsonantValues();
      KannadaSignValues();
      forall c: char | 'a' <= c <= 'z'
        ensures [c] in Keys(KannadaConsonants) || [c] in Keys(KannadaVowels)
      {
        KannadaCoversLetters(c);
      }
    }
  }

  /** Every word comes out with no ASCII letter left in it, in either script. */
  lemma {:induction false} NoLatinLeft(word: string, targetLanguage: string)
    ensures NoAsciiLetter(Transliterated(word, targetLanguage))
  {
    LowerHasNoUpper(word);
    ScriptWellFormed(targetLanguage);
    FromNonLatin(Lower(word), 0, ScriptFor(targetLanguage));
  }

  /** A word without ASCII letters (digits, punctuation, other scripts) comes out as it
      went in. */
  lemma {:induction false} NonLettersUnchanged(word: string, targetLanguage: string)
    requires NoAsciiLetter(word)
    ensures Transliterated(word, targetLanguage) == word
  {
    ScriptWellFormed(targetLanguage);
    NoAsciiLetterAt(word);
    LowerNonLetters(word);
    CopiesNonLetters(word, 0, ScriptFor(targetLanguage));
  }
}
