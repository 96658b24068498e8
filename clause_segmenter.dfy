/** `segment_clauses` (backend/app/utils/clause_segmenter.py): a contract split into
    clauses at blank lines, each clause flattened to one line and freed of a leading
    bullet character. */
module ClauseSegmenter {
  import opened Text
  import opened Selection

  /** The third bullet prefix `segment_clauses` tests for: the three characters U+00E2 U+20AC
      U+00A2, which is how the UTF-8 bytes of the bullet U+2022 read when decoded as
      Windows-1252. */
  const Marker: string := "\U{E2}\U{20AC}\U{A2}"

  /** `cleaned.startswith(("-", "*", Marker))`. */
  predicate IsBullet(s: string) {
    StartsWith(s, "-") || StartsWith(s, "*") || StartsWith(s, Marker)
  }

  /** `chunk.strip().replace("\n", " ")`. */
  function Cleaned(chunk: string): string {
    ReplaceChar(Strip(chunk), '\n', ' ')
  }

  /** The cleaned chunks, in order. */
  function AllCleaned(chunks: seq<string>): (cs: seq<string>)
    ensures |cs| == |chunks|
  {
    seq(|chunks|, k requires 0 <= k < |chunks| => Cleaned(chunks[k]))
  }

  /** The candidate a non-empty cleaned chunk gives: a bullet's first character is cut
      and the rest stripped again. */
  function Candidate(cleaned: string): string {
    if IsBullet(cleaned) then Strip(cleaned[1..]) else cleaned
  }

  /** The candidates of the cleaned chunks `cs`: empty ones are skipped. */
  function Candidates(cs: seq<string>): seq<string> {
    if cs == [] then []
    else
      var c := cs[|cs| - 1];
      Candidates(cs[..|cs| - 1]) + (if c == [] then [] else [Candidate(c)])
  }

  /** The clauses `segment_clauses(text)` returns. */
  function Segments(text: string): seq<string> {
    Candidates(AllCleaned(Split(text, "\n\n")))
  }

  /** `segment_clauses(text)`. */
  method SegmentClauses(text: string) returns (candidates: seq<string>)
    ensures candidates == Segments(text)
  {
    var chunks := Split(text, "\n\n");
    ghost var cs := AllCleaned(chunks);
    candidates := [];
    for i := 0 to |chunks|
      invariant candidates == Candidates(cs[..i])
    {
      assert cs[..i + 1][..i] == cs[..i];
      var cleaned := ReplaceChar(Strip(chunks[i]), '\n', ' ');
      assert cleaned == cs[i];
      if cleaned == [] {
        continue;
      }
      if StartsWith(cleaned, "-") || StartsWith(cleaned, "*") || StartsWith(cleaned, Marker) {
        cleaned := Strip(cleaned[1..]);
      }
      candidates := candidates + [cleaned];
    }
    assert cs[..|chunks|] == cs;
  }

  // ------------------------------------------------------------ what the segmenter promises

  /** Which cleaned chunks are kept. */
  function NonEmpty(cs: seq<string>): (flags: seq<bool>)
    ensures |flags| == |cs|
  {
    seq(|cs|, k requires 0 <= k < |cs| => cs[k] != [])
  }

  /** The candidates are those of the non-empty cleaned chunks, one each, in order. */
  lemma {:induction false} CandidatesKept(cs: seq<string>)
    ensures var p, out := Positions(NonEmpty(cs)), Candidates(cs);
            |out| == |p| && forall a :: 0 <= a < |p| ==> p[a] < |cs| && out[a] == Candidate(cs[p[a]])
  {
    if cs != [] {
      var n := |cs|;
      var init := cs[..n - 1];
      CandidatesKept(init);
      assert NonEmpty(cs)[..n - 1] == NonEmpty(init);
      var p, out := Positions(NonEmpty(cs)), Candidates(cs);
      var p', out' := Positions(NonEmpty(init)), Candidates(init);
      assert p == p' + (if cs[n - 1] != [] then [n - 1] else []);
      forall a | 0 <= a < |p| ensures p[a] < |cs| && out[a] == Candidate(cs[p[a]]) {
        if a < |p'| {
          assert p[a] == p'[a] && out[a] == out'[a];
          assert init[p'[a]] == cs[p'[a]];
        }
      }
    }
  }

  /** A chunk is dropped exactly when it is white space only. */
  lemma {:induction false} CleanedEmptyIff(chunk: string)
    ensures Cleaned(chunk) == [] <==> AllSpace(chunk)
  {
    StripEmptyIff(chunk);
  }

  /** The clauses correspond, in order, to the `"\n\n"`-separated chunks that are not
      white space only: the k-th clause is the candidate of the k-th such chunk, so there
      are at most as many clauses as chunks. */
  lemma {:induction false} SegmentsCorrespond(text: string)
    ensures var chunks, out := Split(text, "\n\n"), Segments(text);
            var p := Positions(NonEmpty(AllCleaned(chunks)));
            |out| == |p| <= |chunks|
            && (forall a :: 0 <= a < |p| ==>
                  p[a] < |chunks| && !AllSpace(chunks[p[a]]) && out[a] == Candidate(Cleaned(chunks[p[a]])))
            && (forall a, b :: 0 <= a < b < |p| ==> p[a] < p[b])
            && (forall k :: 0 <= k < |chunks| && !AllSpace(chunks[k]) ==> k in p)
  {
    var chunks := Split(text, "\n\n");
    var cs := AllCleaned(chunks);
    CandidatesKept(cs);
    PositionsSpec(NonEmpty(cs));
    var p := Positions(NonEmpty(cs));
    forall a | 0 <= a < |p| ensures !AllSpace(chunks[p[a]]) {
      assert NonEmpty(cs)[p[a]];
      CleanedEmptyIff(chunks[p[a]]);
    }
    forall k | 0 <= k < |chunks| && !AllSpace(chunks[k]) ensures k in p {
      CleanedEmptyIff(chunks[k]);
      assert NonEmpty(cs)[k];
    }
  }

  /** No candidate holds a newline: inner newlines became spaces. */
  lemma {:induction false} CandidateOneLine(cleaned: string, chunk: string)
    requires cleaned == Cleaned(chunk)
    ensures '\n' !in Candidate(cleaned)
  {
    assert '\n' !in cleaned;
    if IsBullet(cleaned) {
      var rest := cleaned[1..];
      assert '\n' !in rest;
      if '\n' in Strip(rest) {
        StripChars(rest, '\n');
      }
    }
  }

  lemma {:induction false} CandidatesOneLine(chunks: seq<string>)
    ensures forall s :: s in Candidates(AllCleaned(chunks)) ==> '\n' !in s
  {
    var cs := AllCleaned(chunks);
    CandidatesKept(cs);
    var p := Positions(NonEmpty(cs));
    forall s | s in Candidates(cs) ensures '\n' !in s {
      var a :| 0 <= a < |Candidates(cs)| && Candidates(cs)[a] == s;
      CandidateOneLine(cs[p[a]], chunks[p[a]]);
    }
  }

  /** No clause contains a newline. */
  lemma {:induction false} SegmentsOneLine(text: string)
    ensures forall s :: s in Segments(text) ==> '\n' !in s
  {
    CandidatesOneLine(Split(text, "\n\n"));
  }

  /** A leading `-` or `*` is cut, exactly one character, and the rest stripped again. */
  lemma {:induction false} BulletCut(cleaned: string)
    requires cleaned != [] && (cleaned[0] == '-' || cleaned[0] == '*')
    ensures Candidate(cleaned) == Strip(cleaned[1..])
  {
    assert cleaned[..1] == [cleaned[0]];
    assert IsBullet(cleaned);
  }

  /** `Strip` keeps a string that starts with two non-space characters starting with
      them. */
  lemma {:induction false} StripKeepsFront(s: string)
    requires |s| >= 2 && !IsSpace(s[0]) && !IsSpace(s[1])
    ensures |Strip(s)| >= 2 && Strip(s)[..2] == s[..2]
  {
    assert TrimLeft(s) == s;
  }

  /** Only the first of the three marker characters is cut: a clause that began with the
      marker keeps its other two characters at the front. */
  lemma {:induction false} MarkerLeavesTwo(cleaned: string)
    requires StartsWith(cleaned, Marker)
    ensures var c := Candidate(cleaned);
            c == Strip(cleaned[1..]) && |c| >= 2 && c[..2] == "\U{20AC}\U{A2}"
  {
    assert cleaned[..3] == Marker;
    assert IsBullet(cleaned);
    var rest := cleaned[1..];
    assert rest[0] == '\U{20AC}' && rest[1] == '\U{A2}';
    assert rest[..2] == "\U{20AC}\U{A2}";
    StripKeepsFront(rest);
  }

  /** A chunk that is only a `-` or `*` bullet gives an empty clause, and it is kept. */
  lemma {:induction false} BareBullet(chunk: string)
    requires Strip(chunk) == "-" || Strip(chunk) == "*"
    ensures Cleaned(chunk) != [] && Candidate(Cleaned(chunk)) == []
  {
    assert Cleaned(chunk) == Strip(chunk);
    var e: string := [];
    assert Strip(chunk)[1..] == e;
    StripEmptyIff(e);
  }
}
