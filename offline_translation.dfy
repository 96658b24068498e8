/** The offline path of `offline_translate`
    (clearclause-legal-assistant/backend/legal_processor.py): the text, after its phrase
    pass, cut into tokens; each word of two or more ASCII letters replaced by its entry in
    the term dictionary of the target language or else by its transliteration; the pieces
    joined, white-space runs collapsed, the result stripped and a fixed notice added. */
module OfflineTranslation {
  import opened Wrappers
  import opened Text
  import opened Dict
  import opened Transliteration

  /** The notice every offline translation ends with. */
  const Notice: string := "\n(Offline translation; some words approximated.)"

  // the dictionaries `hindi_terms` and `kannada_terms`; the entries with a space are the
  // phrases of the phrase pass, which no token can match

  const HindiTerms: Dict<string> := HindiPhrases + HindiWords1 + HindiWords2 + HindiWords3

  const HindiPhrases: Dict<string> :=
    [
     ("governing law", "\U{92A}\U{94D}\U{930}\U{92D}\U{93E}\U{935}\U{940} \U{915}\U{93E}\U{928}\U{942}\U{928}"),
     ("this agreement", "\U{92F}\U{939} \U{938}\U{92E}\U{91D}\U{94C}\U{924}\U{93E}"),
     ("mutual consent", "\U{92A}\U{93E}\U{930}\U{938}\U{94D}\U{92A}\U{930}\U{93F}\U{915} \U{938}\U{939}\U{92E}\U{924}\U{93F}"),
     ("shall survive", "\U{91C}\U{93E}\U{930}\U{940} \U{930}\U{939}\U{947}\U{917}\U{93E}"),
     ("force majeure", "\U{926}\U{948}\U{935}\U{93F}\U{915} \U{906}\U{92A}\U{926}\U{93E}"),
     ("in witness whereof", "\U{907}\U{938} \U{938}\U{93E}\U{915}\U{94D}\U{937}\U{94D}\U{92F} \U{92E}\U{947}\U{902}"),
     ("non disclosure", "\U{917}\U{948}\U{930} \U{92A}\U{94D}\U{930}\U{915}\U{91F}\U{940}\U{915}\U{930}\U{923}"),
     ("data protection", "\U{921}\U{947}\U{91F}\U{93E} \U{938}\U{902}\U{930}\U{915}\U{94D}\U{937}\U{923}"),
     ("limitation of liability", "\U{926}\U{947}\U{92F}\U{924}\U{93E} \U{915}\U{940} \U{938}\U{940}\U{92E}\U{93E}"),
     ("applicable law", "\U{92A}\U{94D}\U{930}\U{93E}\U{938}\U{902}\U{917}\U{93F}\U{915} \U{915}\U{93E}\U{928}\U{942}\U{928}")
    ]

  const HindiWords1: Dict<string> :=
    [
     ("agreement", "\U{938}\U{92E}\U{91D}\U{94C}\U{924}\U{93E}"),
     ("party", "\U{92A}\U{915}\U{94D}\U{937}"),
     ("parties", "\U{92A}\U{915}\U{94D}\U{937}\U{94B}\U{902}"),
     ("confidentiality", "\U{917}\U{94B}\U{92A}\U{928}\U{940}\U{92F}\U{924}\U{93E}"),
     ("obligation", "\U{926}\U{93E}\U{92F}\U{93F}\U{924}\U{94D}\U{935}"),
     ("obligations", "\U{926}\U{93E}\U{92F}\U{93F}\U{924}\U{94D}\U{935}\U{94B}\U{902}"),
     ("termination", "\U{938}\U{92E}\U{93E}\U{92A}\U{928}"),
     ("year", "\U{935}\U{930}\U{94D}\U{937}"),
     ("years", "\U{935}\U{930}\U{94D}\U{937}"),
     ("governing", "\U{92A}\U{94D}\U{930}\U{92D}\U{93E}\U{935}\U{940}")
    ]

  const HindiWords2: Dict<string> :=
    [
     ("law", "\U{915}\U{93E}\U{928}\U{942}\U{928}"),
     ("india", "\U{92D}\U{93E}\U{930}\U{924}"),
     ("signed", "\U{939}\U{938}\U{94D}\U{924}\U{93E}\U{915}\U{94D}\U{937}\U{930}\U{93F}\U{924}"),
     ("electronic", "\U{907}\U{932}\U{947}\U{915}\U{94D}\U{91F}\U{94D}\U{930}\U{949}\U{928}\U{93F}\U{915}"),
     ("document", "\U{926}\U{938}\U{94D}\U{924}\U{93E}\U{935}\U{947}\U{91C}"),
     ("clause", "\U{927}\U{93E}\U{930}\U{93E}"),
     ("clauses", "\U{927}\U{93E}\U{930}\U{93E}\U{90F}\U{901}"),
     ("data", "\U{921}\U{947}\U{91F}\U{93E}"),
     ("privacy", "\U{917}\U{94B}\U{92A}\U{928}\U{940}\U{92F}\U{924}\U{93E}"),
     ("liability", "\U{926}\U{947}\U{92F}\U{924}\U{93E}")
    ]

  const HindiWords3: Dict<string> :=
    [
     ("shall", "\U{915}\U{930}\U{947}\U{902}\U{917}\U{947}"),
     ("may", "\U{938}\U{915}\U{924}\U{947} \U{939}\U{948}\U{902}"),
     ("must", "\U{905}\U{935}\U{936}\U{94D}\U{92F}"),
     ("including", "\U{938}\U{92E}\U{947}\U{924}"),
     ("disclosure", "\U{92A}\U{94D}\U{930}\U{915}\U{91F}\U{940}\U{915}\U{930}\U{923}"),
     ("effective", "\U{92A}\U{94D}\U{930}\U{92D}\U{93E}\U{935}\U{940}"),
     ("date", "\U{924}\U{93F}\U{925}\U{93F}"),
     ("warranty", "\U{935}\U{93E}\U{930}\U{902}\U{91F}\U{940}"),
     ("indemnity", "\U{92A}\U{94D}\U{930}\U{924}\U{93F}\U{92A}\U{942}\U{930}\U{94D}\U{924}\U{93F}")
    ]

  const KannadaTerms: Dict<string> := KannadaPhrases + KannadaWords1 + KannadaWords2 + KannadaWords3

  const KannadaPhrases: Dict<string> :=
    [
     ("governing law", "\U{CAA}\U{CCD}\U{CB0}\U{CAD}\U{CBE}\U{CB5}\U{CBF} \U{C95}\U{CBE}\U{CA8}\U{CC2}\U{CA8}\U{CC1}"),
     ("this agreement", "\U{C88} \U{C92}\U{CAA}\U{CCD}\U{CAA}\U{C82}\U{CA6}"),
     ("mutual consent", "\U{CAA}\U{CB0}\U{CB8}\U{CCD}\U{CAA}\U{CB0} \U{C92}\U{CAA}\U{CCD}\U{CAA}\U{CBF}\U{C97}\U{CC6}"),
     ("shall survive", "\U{CAE}\U{CC1}\U{C82}\U{CA6}\U{CC1}\U{CB5}\U{CB0}\U{CBF}\U{CAF}\U{CC1}\U{CA4}\U{CCD}\U{CA4}\U{CA6}\U{CC6}"),
     ("force majeure", "\U{C85}\U{CAA}\U{CB0}\U{CBF}\U{CB9}\U{CBE}\U{CB0}\U{CCD}\U{CAF} \U{CAA}\U{CB0}\U{CBF}\U{CB8}\U{CCD}\U{CA5}\U{CBF}\U{CA4}\U{CBF}"),
     ("in witness whereof", "\U{CB8}\U{CBE}\U{C95}\U{CCD}\U{CB7}\U{CBF}\U{CAF}\U{CBE}\U{C97}\U{CBF}"),
     ("non disclosure", "\U{C85}\U{CAA}\U{CCD}\U{CB0}\U{C95}\U{C9F}\U{CA3}\U{CC6}"),
     ("data protection", "\U{CA1}\U{CC7}\U{C9F}\U{CBE} \U{CB0}\U{C95}\U{CCD}\U{CB7}\U{CA3}\U{CBE}"),
     ("limitation of liability", "\U{CAC}\U{CBE}\U{CA7}\U{CCD}\U{CAF}\U{CA4}\U{CC6}\U{CAF} \U{CAE}\U{CBF}\U{CA4}\U{CBF}"),
     ("applicable law", "\U{C85}\U{CA8}\U{CCD}\U{CB5}\U{CAF}\U{CBF}\U{CB8}\U{CC1}\U{CB5} \U{C95}\U{CBE}\U{CA8}\U{CC2}\U{CA8}\U{CC1}")
    ]

  const KannadaWords1: Dict<string> :=
    [
     ("agreement", "\U{C92}\U{CAA}\U{CCD}\U{CAA}\U{C82}\U{CA6}"),
     ("party", "\U{CAA}\U{C95}\U{CCD}\U{CB7}"),
     ("parties", "\U{CAA}\U{C95}\U{CCD}\U{CB7}\U{C97}\U{CB3}\U{CC1}"),
     ("confidentiality", "\U{C97}\U{CCC}\U{CAA}\U{CCD}\U{CAF}\U{CA4}\U{CC6}"),
     ("obligation", "\U{CAC}\U{CA6}\U{CCD}\U{CA6}\U{CA4}\U{CC6}"),
     ("obligations", "\U{CAC}\U{CA6}\U{CCD}\U{CA6}\U{CA4}\U{CC6}\U{C97}\U{CB3}\U{CC1}"),
     ("termination", "\U{CB0}\U{CA6}\U{CCD}\U{CA6}\U{CC1}"),
     ("year", "\U{CB5}\U{CB0}\U{CCD}\U{CB7}"),
     ("years", "\U{CB5}\U{CB0}\U{CCD}\U{CB7}\U{C97}\U{CB3}\U{CC1}"),
     ("governing", "\U{CAA}\U{CCD}\U{CB0}\U{CAD}\U{CBE}\U{CB5}\U{CBF}")
    ]

  const KannadaWords2: Dict<string> :=
    [
     ("law", "\U{C95}\U{CBE}\U{CA8}\U{CC2}\U{CA8}\U{CC1}"),
     ("india", "\U{CAD}\U{CBE}\U{CB0}\U{CA4}"),
     ("signed", "\U{CB8}\U{CB9}\U{CBF} \U{CAE}\U{CBE}\U{CA1}\U{CB2}\U{CBE}\U{C97}\U{CBF}\U{CA6}\U{CC6}"),
     ("electronic", "\U{C87}\U{CB2}\U{CC6}\U{C95}\U{CCD}\U{C9F}\U{CCD}\U{CB0}\U{CBE}\U{CA8}\U{CBF}\U{C95}\U{CCD}"),
     ("document", "\U{CA1}\U{CBE}\U{C95}\U{CCD}\U{CAF}\U{CC1}\U{CAE}\U{CC6}\U{C82}\U{C9F}\U{CCD}"),
     ("clause", "\U{CB5}\U{CBF}\U{CA7}\U{CBE}\U{CA8}"),
     ("clauses", "\U{CB5}\U{CBF}\U{CA7}\U{CBE}\U{CA8}\U{C97}\U{CB3}\U{CC1}"),
     ("data", "\U{CA1}\U{CC7}\U{C9F}\U{CBE}"),
     ("privacy", "\U{C97}\U{CCC}\U{CAA}\U{CCD}\U{CAF}\U{CA4}\U{CC6}"),
     ("liability", "\U{CAC}\U{CBE}\U{CA7}\U{CCD}\U{CAF}\U{CA4}\U{CC6}")
    ]

  const KannadaWords3: Dict<string> :=
    [
     ("shall", "\U{CAE}\U{CBE}\U{CA1}\U{CAC}\U{CC7}\U{C95}\U{CC1}"),
     ("may", "\U{CAC}\U{CB9}\U{CC1}\U{CA6}\U{CBE}\U{C97}\U{CBF}\U{CA6}\U{CC6}"),
     ("must", "\U{C85}\U{C97}\U{CA4}\U{CCD}\U{CAF}"),
     ("including", "\U{C92}\U{CB3}\U{C97}\U{CCA}\U{C82}\U{CA1}\U{C82}\U{CA4}\U{CC6}"),
     ("disclosure", "\U{CAA}\U{CCD}\U{CB0}\U{C95}\U{C9F}\U{CA3}\U{CC6}"),
     ("effective", "\U{CAA}\U{CCD}\U{CB0}\U{CAD}\U{CBE}\U{CB5}\U{CBF}"),
     ("date", "\U{CA6}\U{CBF}\U{CA8}\U{CBE}\U{C82}\U{C95}"),
     ("warranty", "\U{CB9}\U{CBE}\U{CAE}\U{CBF}"),
     ("indemnity", "\U{CA8}\U{CB7}\U{CCD}\U{C9F}\U{CAA}\U{CC2}\U{CB0}\U{CC8}\U{C95}\U{CC6}")
    ]

  /** `hindi_terms if target_language == "Hindi" else kannada_terms`. */
  function TermsFor(targetLanguage: string): Dict<string> {
    if targetLanguage == "Hindi" then HindiTerms else KannadaTerms
  }

  // ------------------------------------------------------------ tokens

  /** The character classes whose runs the two regular expressions take whole. */
  datatype CharClass = Letters | Digits | Spaces

  predicate InClass(c: char, cls: CharClass) {
    match cls
    case Letters => IsAsciiLetter(c)
    case Digits => IsAsciiDigit(c)
    case Spaces => IsSpace(c)
  }

  /** The end of the run of characters of class `cls` that starts at `i`. */
  function Span(s: string, i: nat, cls: CharClass): (k: nat)
    requires i <= |s|
    ensures i <= k <= |s|
    ensures forall j :: i <= j < k ==> InClass(s[j], cls)
    ensures k < |s| ==> !InClass(s[k], cls)
    decreases |s| - i
  {
    if i == |s| || !InClass(s[i], cls) then i else Span(s, i + 1, cls)
  }

  /** `re.findall(r"[A-Za-z]{2,}|\d+|[^A-Za-z\d]", s)`: a run of two or more letters, a
      run of digits, or any other single character; a letter standing alone matches no
      alternative and is passed over. */
  function Tokens(s: string): seq<string>
    decreases |s|
  {
    if s == [] then []
    else if IsAsciiLetter(s[0]) then
      var k := Span(s, 0, Letters);
      if k >= 2 then [s[..k]] + Tokens(s[k..]) else Tokens(s[1..])
    else if IsAsciiDigit(s[0]) then
      var k := Span(s, 0, Digits);
      [s[..k]] + Tokens(s[k..])
    else [s[..1]] + Tokens(s[1..])
  }

  /** `re.fullmatch(r"[A-Za-z]{2,}", t)`. */
  predicate IsWord(t: string) {
    |t| >= 2 && forall j :: 0 <= j < |t| ==> IsAsciiLetter(t[j])
  }

  /** The three shapes of a token. */
  predicate TokenShape(t: string) {
    IsWord(t)
    || (|t| >= 1 && forall j :: 0 <= j < |t| ==> IsAsciiDigit(t[j]))
    || (|t| == 1 && !IsAsciiLetter(t[0]) && !IsAsciiDigit(t[0]))
  }

  /** The piece one token becomes: a word's dictionary term, else its lowercased form
      transliterated in the script `sc` of the target language (`RenderedTransliterates`);
      any other token unchanged. */
  function Rendered(t: string, terms: Dict<string>, sc: Script): string {
    if IsWord(t) then GetOr(terms, Lower(t), From(Lower(t), 0, sc)) else t
  }

  function Pieces(tokens: seq<string>, terms: Dict<string>, sc: Script): (ps: seq<string>)
    ensures |ps| == |tokens|
  {
    seq(|tokens|, k requires 0 <= k < |tokens| => Rendered(tokens[k], terms, sc))
  }

  /** `re.sub(r"\s+", " ", s)`: every run of white space becomes one space. */
  function Collapse(s: string): string
    decreases |s|
  {
    if s == [] then []
    else if IsSpace(s[0]) then " " + Collapse(s[Span(s, 0, Spaces)..])
    else [s[0]] + Collapse(s[1..])
  }

  /** What `offline_translate` returns for the text `processed` that its phrase pass
      left. */
  function Translation(processed: string, targetLanguage: string): string {
    Finished(Concat(Pieces(Tokens(processed), TermsFor(targetLanguage), ScriptFor(targetLanguage))))
  }

  /** The joined pieces with their white space collapsed and stripped, then the notice. */
  function Finished(joined: string): string {
    Strip(Collapse(joined)) + Notice
  }

  /** The token loop of `offline_translate`, appending one piece per token to
      `out_parts`. */
  method RenderTokens(tokens: seq<string>, terms: Dict<string>, sc: Script) returns (parts: seq<string>)
    ensures parts == Pieces(tokens, terms, sc)
  {
    parts := [];
    for k := 0 to |tokens|
      invariant |parts| == k
      invariant forall j :: 0 <= j < k ==> parts[j] == Rendered(tokens[j], terms, sc)
    {
      var piece := RenderToken(tokens[k], terms, sc);
      parts := parts + [piece];
    }
  }

  /** The body of the token loop for one token; `transliterate` lowercases the already
      lowercased word again, which changes nothing, and scans it in `sc`. */
  method RenderToken(t: string, terms: Dict<string>, sc: Script) returns (piece: string)
    ensures piece == Rendered(t, terms, sc)
  {
    if IsWord(t) {
      var lower := Lower(t);
      var fallback := Scan(lower, sc);
      piece := GetOr(terms, lower, fallback);
    } else {
      piece := t;
    }
  }

  /** `offline_translate(text, target_language)` from the point where the phrase pass has
      produced `processed`. */
  method OfflineTranslate(processed: string, targetLanguage: string) returns (r: string)
    ensures r == Translation(processed, targetLanguage)
  {
    var terms := TermsFor(targetLanguage);
    var sc := ScriptFor(targetLanguage);
    var tokens := Tokens(processed);
    var parts := RenderTokens(tokens, terms, sc);
    var outText := Concat(parts);
    outText := Strip(Collapse(outText));
    r := outText + Notice;
  }

  // ------------------------------------------------------------ what the tokens promise

  lemma {:induction false} TokenShapes(s: string)
    ensures forall t :: t in Tokens(s) ==> TokenShape(t)
    decreases |s|
  {
    if s != [] {
      if IsAsciiLetter(s[0]) {
        var k := Span(s, 0, Letters);
        if k >= 2 {
          TokenShapes(s[k..]);
          assert IsWord(s[..k]);
        } else {
          TokenShapes(s[1..]);
        }
      } else if IsAsciiDigit(s[0]) {
        var k := Span(s, 0, Digits);
        TokenShapes(s[k..]);
        assert TokenShape(s[..k]);
      } else {
        TokenShapes(s[1..]);
        assert TokenShape(s[..1]);
      }
    }
  }

  /** Every letter of `s` has a letter beside it. */
  predicate NoLoneLetter(s: string) {
    forall j :: 0 <= j < |s| && IsAsciiLetter(s[j]) ==> LetterBeside(s, j)
  }

  predicate LetterBeside(s: string, j: nat)
    requires j < |s|
  {
    (j > 0 && IsAsciiLetter(s[j - 1])) || (j + 1 < |s| && IsAsciiLetter(s[j + 1]))
  }

  /** Where the first token of a text without a lone letter ends. */
  function Cut(s: string): (k: nat)
    requires s != []
    ensures 0 < k <= |s|
  {
    if IsAsciiLetter(s[0]) then Span(s, 0, Letters)
    else if IsAsciiDigit(s[0]) then Span(s, 0, Digits)
    else 1
  }

  /** Without a lone letter the first token is the text up to `Cut`, and the tokens go on
      from there. */
  lemma {:induction false} TokensStep(s: string)
    requires s != [] && NoLoneLetter(s)
    ensures var k := Cut(s);
            Tokens(s) == [s[..k]] + Tokens(s[k..])
            && (k < |s| && IsAsciiLetter(s[k]) ==> !IsAsciiLetter(s[k - 1]))
  {
    if IsAsciiLetter(s[0]) {
      assert InClass(s[0], Letters);
      assert LetterBeside(s, 0);
      assert InClass(s[1], Letters);
    } else if IsAsciiDigit(s[0]) {
      var k := Span(s, 0, Digits);
      assert InClass(s[0], Digits) && InClass(s[k - 1], Digits);
    }
  }

  /** The tokens put together give the text back when no letter stands alone. */
  lemma {:induction false} TokensCover(s: string)
    requires NoLoneLetter(s)
    ensures Concat(Tokens(s)) == s
    decreases |s|
  {
    if s != [] {
      var k := Cut(s);
      TokensStep(s);
      LoneFreeSuffix(s, k);
      TokensCover(s[k..]);
      var ts := Tokens(s);
      assert ts[1..] == Tokens(s[k..]);
      assert s == s[..k] + s[k..];
    }
  }

  /** Cutting a text where a letter does not follow a letter leaves no letter alone. */
  lemma {:induction false} LoneFreeSuffix(s: string, k: nat)
    requires NoLoneLetter(s) && 0 < k <= |s|
    requires k < |s| && IsAsciiLetter(s[k]) ==> !IsAsciiLetter(s[k - 1])
    ensures NoLoneLetter(s[k..])
  {
    var rest := s[k..];
    forall j | 0 <= j < |rest| && IsAsciiLetter(rest[j])
      ensures LetterBeside(rest, j)
    {
      assert rest[j] == s[k + j];
      assert LetterBeside(s, k + j);
      if j > 0 { assert rest[j - 1] == s[k + j - 1]; }
      if j + 1 < |rest| { assert rest[j + 1] == s[k + j + 1]; }
    }
  }

  /** A text without ASCII letters gives tokens without them. */
  lemma {:induction false} LetterFreeTokens(s: string)
    requires NoAsciiLetter(s)
    ensures forall t :: t in Tokens(s) ==> NoAsciiLetter(t)
    decreases |s|
  {
    if s != [] {
      assert !IsAsciiLetter(s[0]);
      if IsAsciiDigit(s[0]) {
        var k := Span(s, 0, Digits);
        LetterFreeTokens(s[k..]);
        assert NoAsciiLetter(s[..k]);
      } else {
        LetterFreeTokens(s[1..]);
        assert NoAsciiLetter(s[..1]);
      }
    }
  }

  /** A letter standing alone before a non-letter is dropped. */
  lemma {:induction false} LoneLetterDropped(c: char, rest: string)
    requires IsAsciiLetter(c) && (rest == [] || !IsAsciiLetter(rest[0]))
    ensures Tokens([c] + rest) == Tokens(rest)
  {
    var s := [c] + rest;
    assert Span(s, 0, Letters) == 1 by {
      assert s[0] == c;
      if |s| > 1 { assert s[1] == rest[0]; }
    }
    assert s[1..] == rest;
  }

  // ------------------------------------------------------------ what the cleanup promises

  /** Only single spaces, never two white-space characters in a row. */
  predicate Tidy(r: string) {
    (forall j :: 0 <= j < |r| && IsSpace(r[j]) ==> r[j] == ' ')
    && (forall j :: 0 <= j < |r| - 1 ==> !IsSpace(r[j]) || !IsSpace(r[j + 1]))
  }

  /** Collapsing keeps every other character in order, and its result is tidy and starts
      with the character `s` starts with when that is not white space. */
  lemma {:induction false} CollapseKeeps(s: string)
    ensures Visible(Collapse(s)) == Visible(s)
    ensures Tidy(Collapse(s))
    ensures s != [] && !IsSpace(s[0]) ==> Collapse(s) != [] && Collapse(s)[0] == s[0]
    decreases |s|
  {
    if s != [] {
      if IsSpace(s[0]) {
        var k := Span(s, 0, Spaces);
        var rest := s[k..];
        CollapseKeeps(rest);
        assert s == s[..k] + rest;
        VisibleConcat(s[..k], rest);
        VisibleOfSpaces(s[..k]);
        assert Visible(" ") == [];
        VisibleConcat(" ", Collapse(rest));
        TidyCons(' ', Collapse(rest));
      } else {
        CollapseKeeps(s[1..]);
        assert s == [s[0]] + s[1..];
        VisibleConcat([s[0]], s[1..]);
        VisibleConcat([s[0]], Collapse(s[1..]));
        TidyCons(s[0], Collapse(s[1..]));
      }
    }
  }

  lemma {:induction false} TidyCons(c: char, r: string)
    requires Tidy(r) && (IsSpace(c) ==> c == ' ' && (r == [] || !IsSpace(r[0])))
    ensures Tidy([c] + r)
  {
    var t := [c] + r;
    forall j | 0 <= j < |t| - 1 ensures !IsSpace(t[j]) || !IsSpace(t[j + 1]) {
      if j > 0 { assert t[j] == r[j - 1] && t[j + 1] == r[j]; }
    }
  }

  /** Collapsing adds no ASCII letter. */
  lemma {:induction false} CollapseNoLetter(s: string)
    requires NoAsciiLetter(s)
    ensures NoAsciiLetter(Collapse(s))
    decreases |s|
  {
    if s != [] {
      if IsSpace(s[0]) {
        var rest := s[Span(s, 0, Spaces)..];
        CollapseNoLetter(rest);
        NoAsciiLetterConcat(" ", Collapse(rest));
      } else {
        CollapseNoLetter(s[1..]);
        NoAsciiLetterConcat([s[0]], Collapse(s[1..]));
      }
    }
  }

  /** A piece of a tidy string, and of a string without ASCII letters, keeps the
      property. */
  lemma {:induction false} SliceKeeps(r: string, lo: nat, hi: nat)
    requires lo <= hi <= |r|
    ensures Tidy(r) ==> Tidy(r[lo..hi])
    ensures NoAsciiLetter(r) ==> NoAsciiLetter(r[lo..hi])
  {
    var t := r[lo..hi];
    assert forall j :: 0 <= j < |t| ==> t[j] == r[lo + j];
    if NoAsciiLetter(r) { NoAsciiLetterSlice(r, lo, hi); }
  }

  lemma {:induction false} StripKeeps(r: string)
    ensures Tidy(r) ==> Tidy(Strip(r))
    ensures NoAsciiLetter(r) ==> NoAsciiLetter(Strip(r))
  {
    var lo := LeadingSpace(r);
    StripSlice(r);
    SliceKeeps(r, lo, lo + |Strip(r)|);
  }

  // ------------------------------------------------------------ what the translation promises

  /** Neither dictionary has an ASCII letter in a term. */
  lemma {:induction false} TermsNonLatin(targetLanguage: string)
    ensures ValuesNonLatin(TermsFor(targetLanguage))
  {
    if targetLanguage == "Hindi" { HindiTermsNonLatin(); } else { KannadaTermsNonLatin(); }
  }

  /** A word with no dictionary term becomes what `transliterate` makes of its lowercased
      form. */
  lemma {:induction false} RenderedTransliterates(t: string, terms: Dict<string>, targetLanguage: string)
    requires IsWord(t) && Lower(t) !in Keys(terms)
    ensures Rendered(t, terms, ScriptFor(targetLanguage)) == Transliterated(Lower(t), targetLanguage)
  {
    LowerIdempotent(t);
  }

  lemma {:induction false} RenderedNonLatin(t: string, terms: Dict<string>, sc: Script)
    requires TokenShape(t) && ValuesNonLatin(terms) && WellFormed(sc)
    ensures NoAsciiLetter(Rendered(t, terms, sc))
  {
    if IsWord(t) {
      var lower := Lower(t);
      if lower in Keys(terms) {
        LookupNonLatin(terms, lower);
      } else {
        LowerHasNoUpper(t);
        FromNonLatin(lower, 0, sc);
      }
    } else if |t| == 1 {
      assert !IsAsciiLetter(t[0]);
    }
  }

  lemma {:induction false} ConcatNonLatin(ps: seq<string>)
    requires forall k :: 0 <= k < |ps| ==> NoAsciiLetter(ps[k])
    ensures NoAsciiLetter(Concat(ps))
  {
    if ps != [] {
      ConcatNonLatin(ps[1..]);
      NoAsciiLetterConcat(ps[0], Concat(ps[1..]));
    }
  }

  /** No piece holds an ASCII letter. */
  lemma {:induction false} PiecesNonLatin(processed: string, targetLanguage: string)
    ensures NoAsciiLetter(Concat(Pieces(Tokens(processed), TermsFor(targetLanguage), ScriptFor(targetLanguage))))
  {
    var tokens := Tokens(processed);
    var terms, sc := TermsFor(targetLanguage), ScriptFor(targetLanguage);
    var ps := Pieces(tokens, terms, sc);
    TokenShapes(processed);
    TermsNonLatin(targetLanguage);
    ScriptWellFormed(targetLanguage);
    forall k | 0 <= k < |ps| ensures NoAsciiLetter(ps[k]) {
      assert tokens[k] in tokens;
      RenderedNonLatin(tokens[k], terms, sc);
    }
    ConcatNonLatin(ps);
  }

  /** The cleanup leaves a stripped, tidy text before the notice, and adds no ASCII
      letter. */
  lemma {:induction false} CleanupShape(joined: string)
    ensures var r := Finished(joined);
            var body := r[..|r| - |Notice|];
            EndsWith(r, Notice) && body == Strip(Collapse(joined))
            && Strip(body) == body && Tidy(body) && (NoAsciiLetter(joined) ==> NoAsciiLetter(body))
  {
    CollapseKeeps(joined);
    if NoAsciiLetter(joined) { CollapseNoLetter(joined); }
    StripKeeps(Collapse(joined));
    StripIdempotent(Collapse(joined));
    var r := Finished(joined);
    assert r[..|r| - |Notice|] == Strip(Collapse(joined));
  }

  /** The translation ends with the notice, and what comes before it is stripped, holds
      only single spaces and has no ASCII letter left in it: every word was replaced. */
  lemma {:induction false} TranslationShape(processed: string, targetLanguage: string)
    ensures var r := Translation(processed, targetLanguage);
            var body := r[..|r| - |Notice|];
            EndsWith(r, Notice) && Strip(body) == body && Tidy(body) && NoAsciiLetter(body)
  {
    var joined := Concat(Pieces(Tokens(processed), TermsFor(targetLanguage), ScriptFor(targetLanguage)));
    PiecesNonLatin(processed, targetLanguage);
    CleanupShape(joined);
  }

  /** A text with no ASCII letter is only tidied: its white space collapsed and
      stripped, then the notice added. */
  lemma {:induction false} NoLettersKept(processed: string, targetLanguage: string)
    requires NoAsciiLetter(processed)
    ensures Translation(processed, targetLanguage) == Strip(Collapse(processed)) + Notice
  {
    TokensCover(processed);
    LetterFreeTokens(processed);
    var tokens := Tokens(processed);
    var ps := Pieces(tokens, TermsFor(targetLanguage), ScriptFor(targetLanguage));
    forall k | 0 <= k < |tokens| ensures ps[k] == tokens[k] {
      assert tokens[k] in tokens;
      assert !IsWord(tokens[k]) by {
        if |tokens[k]| >= 2 { assert !IsAsciiLetter(tokens[k][0]); }
      }
    }
    assert ps == tokens;
  }

  lemma {:induction false} ValuesNonLatinConcat(a: Dict<string>, b: Dict<string>)
    requires ValuesNonLatin(a) && ValuesNonLatin(b)
    ensures ValuesNonLatin(a + b)
  {
    forall i | 0 <= i < |a + b| ensures NoAsciiLetter((a + b)[i].1) {
      if i < |a| { assert (a + b)[i] == a[i]; } else { assert (a + b)[i] == b[i - |a|]; }
    }
  }

  lemma {:induction false} HindiTermsNonLatin()
    ensures ValuesNonLatin(HindiTerms)
  {
    HindiPhrasesNonLatin();
    HindiWords1NonLatin();
    HindiWords2NonLatin();
    HindiWords3NonLatin();
    ValuesNonLatinConcat(HindiPhrases, HindiWords1);
    ValuesNonLatinConcat(HindiPhrases + HindiWords1, HindiWords2);
    ValuesNonLatinConcat(HindiPhrases + HindiWords1 + HindiWords2, HindiWords3);
  }

  lemma {:induction false} HindiPhrasesNonLatin()
    ensures ValuesNonLatin(HindiPhrases)
  {
    HindiPhrasesHeadNonLatin();
    HindiPhrasesTailNonLatin();
  }

  lemma {:induction false} HindiPhrasesHeadNonLatin()
    ensures forall i :: 0 <= i < 5 ==> NoAsciiLetter(HindiPhrases[i].1)
  {
  }

  lemma {:induction false} HindiPhrasesTailNonLatin()
    ensures forall i :: 5 <= i < |HindiPhrases| ==> NoAsciiLetter(HindiPhrases[i].1)
  {
  }

  lemma {:induction false} HindiWords1NonLatin()
    ensures ValuesNonLatin(HindiWords1)
  {
  }

  lemma {:induction false} HindiWords2NonLatin()
    ensures ValuesNonLatin(HindiWords2)
  {
    HindiWords2HeadNonLatin();
    HindiWords2TailNonLatin();
  }

  lemma {:induction false} HindiWords2HeadNonLatin()
    ensures forall i :: 0 <= i < 5 ==> NoAsciiLetter(HindiWords2[i].1)
  {
  }

  lemma {:induction false} HindiWords2TailNonLatin()
    ensures forall i :: 5 <= i < |HindiWords2| ==> NoAsciiLetter(HindiWords2[i].1)
  {
  }

  lemma {:induction false} HindiWords3NonLatin()
    ensures ValuesNonLatin(HindiWords3)
  {
  }

  lemma {:induction false} KannadaTermsNonLatin()
    ensures ValuesNonLatin(KannadaTerms)
  {
    KannadaPhrasesNonLatin();
    KannadaWords1NonLatin();
    KannadaWords2NonLatin();
    KannadaWords3NonLatin();
    ValuesNonLatinConcat(KannadaPhrases, KannadaWords1);
    ValuesNonLatinConcat(KannadaPhrases + KannadaWords1, KannadaWords2);
    ValuesNonLatinConcat(KannadaPhrases + KannadaWords1 + KannadaWords2, KannadaWords3);
  }

  lemma {:induction false} KannadaPhrasesNonLatin()
    ensures ValuesNonLatin(KannadaPhrases)
  {
    KannadaPhrasesHeadNonLatin();
    KannadaPhrasesTailNonLatin();
  }

  lemma {:induction false} KannadaPhrasesHeadNonLatin()
    ensures forall i :: 0 <= i < 5 ==> NoAsciiLetter(KannadaPhrases[i].1)
  {
  }

  lemma {:induction false} KannadaPhrasesTailNonLatin()
    ensures forall i :: 5 <= i < |KannadaPhrases| ==> NoAsciiLetter(KannadaPhrases[i].1)
  {
  }

  lemma {:induction false} KannadaWords1NonLatin()
    ensures ValuesNonLatin(KannadaWords1)
  {
  }

  lemma {:induction false} KannadaWords2NonLatin()
    ensures ValuesNonLatin(KannadaWords2)
  {
    KannadaWords2HeadNonLatin();
    KannadaWords2TailNonLatin();
  }

  lemma {:induction false} KannadaWords2HeadNonLatin()
    ensures forall i :: 0 <= i < 5 ==> NoAsciiLetter(KannadaWords2[i].1)
  {
  }

  lemma {:induction false} KannadaWords2TailNonLatin()
    ensures forall i :: 5 <= i < |KannadaWords2| ==> NoAsciiLetter(KannadaWords2[i].1)
  {
  }

  lemma {:induction false} KannadaWords3NonLatin()
    ensures ValuesNonLatin(KannadaWords3)
  {
    var d := KannadaWords3;
    assert forall i :: 0 <= i < 5 ==> NoAsciiLetter(d[i].1);
    assert forall i :: 5 <= i < |d| ==> NoAsciiLetter(d[i].1);
  }
}
