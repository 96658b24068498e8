/** The transaction pattern of the SMS parser,

      Rs\.?\s?(?P<amount>[0-9,]+\.?\d{0,2})\s?(?P<direction>debited|credited)
      .*?(?:on|dt)\s?(?P<date>\d{1,2}[A-Za-z]{3}\d{2})
      .*?(?:Ref|Ref No|UPI Ref)\s?(?P<ref>\d+).*?-?(?P<bank>[A-Z]{2,})

    compiled with IGNORECASE and applied with `search`. The pattern is a sequence of
    elements, each with a declarative meaning (`Accepts`) and a list of the ends the
    backtracking regex engine tries for it, in the engine's order (greedy quantifiers
    longest first, the lazy `.*?` shortest first, alternatives left to right). `Match`
    tries them depth first and `SearchFrom` tries start positions left to right, so
    the first success is the one `search` reports. Letters, digits and case folding are
    ASCII. */
module SmsPattern {
  import opened Wrappers
  import opened Text

  // ---------------------------------------------------------------- character classes

  datatype Class = Digit | Letter | AmountChar | NotNewline

  predicate InClass(c: char, k: Class) {
    match k
    case Digit => '0' <= c <= '9'
    case Letter => ('a' <= c <= 'z') || ('A' <= c <= 'Z')
    case AmountChar => ('0' <= c <= '9') || c == ','
    case NotNewline => c != '\n'
  }

  /** Every character of `s[lo..hi]` is in class `k`. */
  predicate AllIn(s: string, lo: nat, hi: nat, k: Class)
    decreases hi - lo
  {
    lo <= hi <= |s| && (lo == hi || (InClass(s[lo], k) && AllIn(s, lo + 1, hi, k)))
  }

  lemma {:induction false} AllInAt(s: string, lo: nat, hi: nat, k: Class, j: nat)
    requires AllIn(s, lo, hi, k) && lo <= j < hi
    ensures InClass(s[j], k)
    decreases j - lo
  {
    if lo < j { AllInAt(s, lo + 1, hi, k, j); }
  }

  lemma {:induction false} AllInPrefix(s: string, lo: nat, mid: nat, hi: nat, k: Class)
    requires AllIn(s, lo, hi, k) && lo <= mid <= hi
    ensures AllIn(s, lo, mid, k)
    decreases mid - lo
  {
    if lo < mid { AllInPrefix(s, lo + 1, mid, hi, k); }
  }

  /** The length of the longest run of class `k` starting at `i`. */
  function Run(s: string, i: nat, k: Class): (n: nat)
    requires i <= |s|
    ensures AllIn(s, i, i + n, k)
    ensures i + n < |s| ==> !InClass(s[i + n], k)
    decreases |s| - i
  {
    if i < |s| && InClass(s[i], k) then 1 + Run(s, i + 1, k) else 0
  }

  lemma {:induction false} RunCovers(s: string, i: nat, hi: nat, k: Class)
    requires i <= hi && AllIn(s, i, hi, k)
    ensures hi - i <= Run(s, i, k)
    decreases hi - i
  {
    if i < hi { RunCovers(s, i + 1, hi, k); }
  }

  /** A run of class `k` may end at `j` exactly when `j` is within the longest run. */
  lemma {:induction false} AllInRun(s: string, i: nat, k: Class)
    requires i <= |s|
    ensures forall j: nat :: i <= j ==> (AllIn(s, i, j, k) <==> j <= i + Run(s, i, k))
  {
    forall j: nat | i <= j ensures AllIn(s, i, j, k) <==> j <= i + Run(s, i, k) {
      if AllIn(s, i, j, k) { RunCovers(s, i, j, k); }
      if j <= i + Run(s, i, k) { AllInPrefix(s, i, j, i + Run(s, i, k), k); }
    }
  }

  /** Every character of `t` is in class `k`. */
  predicate AllOf(t: string, k: Class) {
    forall i :: 0 <= i < |t| ==> InClass(t[i], k)
  }

  lemma {:induction false} AllInSlice(s: string, lo: nat, hi: nat, k: Class)
    requires AllIn(s, lo, hi, k)
    ensures AllOf(s[lo..hi], k)
  {
    forall j | 0 <= j < hi - lo ensures InClass(s[lo..hi][j], k) { AllInAt(s, lo, hi, k, lo + j); }
  }

  /** The lower-case literal `lit` occurs at `i`, ignoring case. */
  predicate LitAt(s: string, i: nat, lit: string)
    decreases |lit|
  {
    if lit == [] then i <= |s|
    else i < |s| && LowerChar(s[i]) == lit[0] && LitAt(s, i + 1, lit[1..])
  }

  lemma {:induction false} LitAtLower(s: string, i: nat, lit: string)
    ensures LitAt(s, i, lit) <==> i + |lit| <= |s| && Lower(s[i..i + |lit|]) == lit
    decreases |lit|
  {
    if lit != [] && i < |s| {
      LitAtLower(s, i + 1, lit[1..]);
      if i + |lit| <= |s| {
        assert s[i..i + |lit|] == [s[i]] + s[i + 1..i + 1 + |lit[1..]|];
        LowerConcat([s[i]], s[i + 1..i + 1 + |lit[1..]|]);
        assert lit == [lit[0]] + lit[1..];
      }
    }
  }

  lemma {:induction false} LitAtBound(s: string, i: nat, t: string)
    requires LitAt(s, i, t)
    ensures i + |t| <= |s|
    decreases |t|
  {
    if t != [] { LitAtBound(s, i + 1, t[1..]); }
  }

  // ---------------------------------------------------------------- pattern elements

  datatype Element =
    | Literal(text: string)                          // lower-case text, matched ignoring case
    | Optional(c: char)                              // `c?`, greedy
    | OptionalSpace                                  // `\s?`, greedy
    | Repeat(k: Class, min: nat, max: Option<nat>)   // `[k]{min,max}`, greedy
    | LazyAny                                        // `.*?`
    | Alternatives(texts: seq<string>)               // `(?:a|b|...)`, left to right

  /** One of the literals `ts` occurs at `i` and ends at `j`. */
  ghost predicate SomeLiteralAt(s: string, i: nat, ts: seq<string>, j: nat) {
    exists t :: t in ts && LitAt(s, i, t) && j == i + |t|
  }

  /** The text an alternative matched is, ignoring case, one of the alternatives. */
  lemma {:induction false} AlternativeText(s: string, i: nat, ts: seq<string>, j: nat)
    requires SomeLiteralAt(s, i, ts, j)
    ensures i <= j <= |s| && Lower(s[i..j]) in ts
  {
    var t :| t in ts && LitAt(s, i, t) && j == i + |t|;
    LitAtLower(s, i, t);
  }

  /** Element `e` can match `s[i..j]`. */
  ghost predicate Accepts(e: Element, s: string, i: nat, j: nat) {
    i <= j <= |s| &&
    match e
    case Literal(t) => LitAt(s, i, t) && j == i + |t|
    case Optional(c) => j == i || (j == i + 1 && s[i] == c)
    case OptionalSpace => j == i || (j == i + 1 && IsSpace(s[i]))
    case Repeat(k, lo, hi) => i + lo <= j && (hi.Some? ==> j <= i + hi.value) && AllIn(s, i, j, k)
    case LazyAny => AllIn(s, i, j, NotNewline)
    case Alternatives(ts) => SomeLiteralAt(s, i, ts, j)
  }

  /** `hi, hi - 1, ..., lo`. */
  function Down(hi: int, lo: nat): (r: seq<nat>)
    ensures forall j: nat :: j in r <==> lo <= j <= hi
    ensures forall a :: 0 <= a < |r| ==> r[a] == hi - a
    decreases hi - lo + 1
  {
    if hi < lo then [] else [hi as nat] + Down(hi - 1, lo)
  }

  /** `lo, lo + 1, ..., hi`. */
  function Up(lo: nat, hi: int): (r: seq<nat>)
    ensures forall j: nat :: j in r <==> lo <= j <= hi
    ensures forall a :: 0 <= a < |r| ==> r[a] == lo + a
    decreases hi - lo + 1
  {
    if hi < lo then [] else [lo] + Up(lo + 1, hi)
  }

  /** The ends of the literals of `ts` that occur at `i`, in the order of `ts`. */
  function LiteralEnds(s: string, i: nat, ts: seq<string>): (r: seq<nat>)
    ensures forall j: nat :: j in r <==> SomeLiteralAt(s, i, ts, j)
  {
    if ts == [] then []
    else
      var rest := LiteralEnds(s, i, ts[1..]);
      assert forall t :: t in ts <==> t == ts[0] || t in ts[1..];
      if LitAt(s, i, ts[0]) then [i + |ts[0]|] + rest else rest
  }

  /** The ends the regex engine tries for `e` at `i`, in the order it tries them: exactly
      the ends `e` accepts. */
  function Candidates(e: Element, s: string, i: nat): (cs: seq<nat>)
    requires i <= |s|
    ensures forall j: nat :: j in cs <==> Accepts(e, s, i, j)
  {
    match e
    case Literal(t) =>
      if LitAt(s, i, t) then LitAtBound(s, i, t); [i + |t|] else []
    case Optional(c) => if i < |s| && s[i] == c then [i + 1, i] else [i]
    case OptionalSpace => if i < |s| && IsSpace(s[i]) then [i + 1, i] else [i]
    case Repeat(k, lo, hi) =>
      AllInRun(s, i, k);
      var n := Run(s, i, k);
      var top := if hi.Some? && hi.value < n then hi.value else n;
      Down(i + top, i + lo)
    case LazyAny =>
      AllInRun(s, i, NotNewline);
      Up(i, i + Run(s, i, NotNewline))
    case Alternatives(ts) =>
      assert forall t :: t in ts && LitAt(s, i, t) ==> i + |t| <= |s| by {
        forall t | t in ts && LitAt(s, i, t) ensures i + |t| <= |s| { LitAtBound(s, i, t); }
      }
      LiteralEnds(s, i, ts)
  }

  // ---------------------------------------------------------------- the engine

  /** `ends[k]` is where element `k` of `p` stops, the first starting at `i`. */
  ghost predicate IsMatch(p: seq<Element>, s: string, i: nat, ends: seq<nat>)
    decreases |p|
  {
    |ends| == |p|
    && (p == [] || (Accepts(p[0], s, i, ends[0]) && IsMatch(p[1..], s, ends[0], ends[1..])))
  }

  /** Some way to match all of `p` from `i` exists. */
  ghost predicate CanMatch(p: seq<Element>, s: string, i: nat) {
    exists ends :: IsMatch(p, s, i, ends)
  }

  /** Depth-first backtracking: the first element's candidates in order, each followed by
      the rest of the pattern. */
  function Match(p: seq<Element>, s: string, i: nat): (r: Option<seq<nat>>)
    requires i <= |s|
    decreases |p|, 1, 0
  {
    if p == [] then Some([])
    else
      var cs := Candidates(p[0], s, i);
      assert forall a :: 0 <= a < |cs| ==> Accepts(p[0], s, i, cs[a]);
      FirstThatFits(p, s, i, cs)
  }

  /** Every candidate end is within `s`. */
  predicate Within(cs: seq<nat>, n: nat) {
    forall a :: 0 <= a < |cs| ==> cs[a] <= n
  }

  /** The first candidate end in `cs` after which the rest of `p` matches. */
  function FirstThatFits(p: seq<Element>, s: string, i: nat, cs: seq<nat>): (r: Option<seq<nat>>)
    requires p != [] && Within(cs, |s|)
    decreases |p|, 0, |cs|
  {
    if cs == [] then None
    else match Match(p[1..], s, cs[0])
      case Some(ends) => Some([cs[0]] + ends)
      case None => FirstThatFits(p, s, i, cs[1..])
  }

  lemma {:induction false} MatchSound(p: seq<Element>, s: string, i: nat)
    requires i <= |s|
    ensures Match(p, s, i).Some? ==> IsMatch(p, s, i, Match(p, s, i).value)
    decreases |p|, 1, 0
  {
    if p != [] {
      var cs := Candidates(p[0], s, i);
      assert forall a :: 0 <= a < |cs| ==> Accepts(p[0], s, i, cs[a]);
      FirstThatFitsSound(p, s, i, cs);
    }
  }

  lemma {:induction false} FirstThatFitsSound(p: seq<Element>, s: string, i: nat, cs: seq<nat>)
    requires p != [] && Within(cs, |s|) && forall a :: 0 <= a < |cs| ==> Accepts(p[0], s, i, cs[a])
    ensures var r := FirstThatFits(p, s, i, cs);
            r.Some? ==> IsMatch(p, s, i, r.value)
    decreases |p|, 0, |cs|
  {
    if cs != [] {
      MatchSound(p[1..], s, cs[0]);
      if Match(p[1..], s, cs[0]).Some? {
        var ends := [cs[0]] + Match(p[1..], s, cs[0]).value;
        assert ends[1..] == Match(p[1..], s, cs[0]).value;
      } else {
        FirstThatFitsSound(p, s, i, cs[1..]);
      }
    }
  }

  lemma {:induction false} MatchComplete(p: seq<Element>, s: string, i: nat, ends: seq<nat>)
    requires i <= |s| && IsMatch(p, s, i, ends)
    ensures Match(p, s, i).Some?
    decreases |p|, 1, 0
  {
    if p != [] {
      var cs := Candidates(p[0], s, i);
      assert forall a :: 0 <= a < |cs| ==> Accepts(p[0], s, i, cs[a]);
      FirstThatFitsComplete(p, s, i, cs, ends);
    }
  }

  lemma {:induction false} FirstThatFitsComplete(p: seq<Element>, s: string, i: nat, cs: seq<nat>, ends: seq<nat>)
    requires p != [] && Within(cs, |s|) && IsMatch(p, s, i, ends) && ends[0] in cs
    ensures FirstThatFits(p, s, i, cs).Some?
    decreases |p|, 0, |cs|
  {
    if cs[0] == ends[0] {
      IsMatchTail(p, s, i, ends);
      MatchComplete(p[1..], s, cs[0], ends[1..]);
    } else if Match(p[1..], s, cs[0]).None? {
      assert ends[0] in cs[1..] by { assert cs == [cs[0]] + cs[1..]; }
      FirstThatFitsComplete(p, s, i, cs[1..], ends);
      FirstThatFitsSkips(p, s, i, cs);
    }
  }

  lemma {:induction false} IsMatchTail(p: seq<Element>, s: string, i: nat, ends: seq<nat>)
    requires p != [] && IsMatch(p, s, i, ends)
    ensures IsMatch(p[1..], s, ends[0], ends[1..])
  {
  }

  lemma {:induction false} FirstThatFitsSkips(p: seq<Element>, s: string, i: nat, cs: seq<nat>)
    requires p != [] && Within(cs, |s|) && cs != [] && Match(p[1..], s, cs[0]).None?
    ensures FirstThatFits(p, s, i, cs) == FirstThatFits(p, s, i, cs[1..])
  {
  }

  /** The engine finds a match exactly when one exists. */
  lemma {:induction false} MatchIff(p: seq<Element>, s: string, i: nat)
    requires i <= |s|
    ensures Match(p, s, i).Some? <==> CanMatch(p, s, i)
  {
    MatchSound(p, s, i);
    if CanMatch(p, s, i) {
      var ends :| IsMatch(p, s, i, ends);
      MatchComplete(p, s, i, ends);
    }
  }

  /** The engine's choice: every element takes the first of its candidates after which
      the rest of the pattern can still match. */
  ghost predicate Preferred(p: seq<Element>, s: string, i: nat, ends: seq<nat>)
    decreases |p|
  {
    IsMatch(p, s, i, ends) && i <= |s|
    && (p != [] ==>
          (var cs := Candidates(p[0], s, i);
           exists k :: 0 <= k < |cs| && cs[k] == ends[0]
                       && forall k' :: 0 <= k' < k ==> !CanMatch(p[1..], s, cs[k']))
          && Preferred(p[1..], s, ends[0], ends[1..]))
  }

  lemma {:induction false} MatchPreferred(p: seq<Element>, s: string, i: nat)
    requires i <= |s| && Match(p, s, i).Some?
    ensures Preferred(p, s, i, Match(p, s, i).value)
    decreases |p|, 1, 0
  {
    MatchSound(p, s, i);
    if p != [] {
      var cs := Candidates(p[0], s, i);
      assert forall a :: 0 <= a < |cs| ==> Accepts(p[0], s, i, cs[a]);
      var k := FirstThatFitsPreferred(p, s, i, cs);
      var ends := Match(p, s, i).value;
      assert ends[0] == cs[k];
      MatchPreferred(p[1..], s, cs[k]);
      assert ends[1..] == Match(p[1..], s, cs[k]).value;
    }
  }

  /** The index of the candidate `FirstThatFits` picks; none before it allows a match. */
  lemma {:induction false} FirstThatFitsPreferred(p: seq<Element>, s: string, i: nat, cs: seq<nat>) returns (k: nat)
    requires p != [] && Within(cs, |s|) && FirstThatFits(p, s, i, cs).Some?
    ensures k < |cs| && Match(p[1..], s, cs[k]).Some?
    ensures FirstThatFits(p, s, i, cs) == Some([cs[k]] + Match(p[1..], s, cs[k]).value)
    ensures forall k' :: 0 <= k' < k ==> !CanMatch(p[1..], s, cs[k'])
    decreases |cs|
  {
    if Match(p[1..], s, cs[0]).Some? {
      k := 0;
    } else {
      MatchIff(p[1..], s, cs[0]);
      var k1 := FirstThatFitsPreferred(p, s, i, cs[1..]);
      k := k1 + 1;
      forall k' | 0 <= k' < k ensures !CanMatch(p[1..], s, cs[k']) {
        if k' > 0 { assert cs[k'] == cs[1..][k' - 1]; }
      }
    }
  }

  /** Matched ends never move backwards and stay within `s`. */
  lemma {:induction false} MatchOrdered(p: seq<Element>, s: string, i: nat, ends: seq<nat>)
    requires IsMatch(p, s, i, ends) && p != []
    ensures i <= ends[0]
    ensures forall a, b :: 0 <= a <= b < |ends| ==> ends[a] <= ends[b] <= |s|
    decreases |p|
  {
    if |p| > 1 {
      MatchOrdered(p[1..], s, ends[0], ends[1..]);
      forall a, b | 0 <= a <= b < |ends| ensures ends[a] <= ends[b] <= |s| {
        if a > 0 { assert ends[a] == ends[1..][a - 1]; }
        if b > 0 { assert ends[b] == ends[1..][b - 1]; }
      }
    }
  }

  /** Element `k` of a match accepts the text between the previous end and its own. */
  lemma {:induction false} MatchAt(p: seq<Element>, s: string, i: nat, ends: seq<nat>, k: nat)
    requires IsMatch(p, s, i, ends) && k < |p|
    ensures Accepts(p[k], s, if k == 0 then i else ends[k - 1], ends[k])
    decreases k
  {
    if k > 0 {
      MatchAt(p[1..], s, ends[0], ends[1..], k - 1);
      if k > 1 { assert ends[1..][k - 2] == ends[k - 1]; }
    }
  }

  /** The part of a match from element `k` on is a match of the rest of the pattern. */
  lemma {:induction false} MatchSuffix(p: seq<Element>, s: string, i: nat, ends: seq<nat>, k: nat)
    requires IsMatch(p, s, i, ends) && 0 < k <= |p|
    ensures IsMatch(p[k..], s, ends[k - 1], ends[k..])
    decreases k
  {
    if k > 1 {
      MatchSuffix(p[1..], s, ends[0], ends[1..], k - 1);
      assert p[1..][k - 1..] == p[k..];
      assert ends[1..][k - 1..] == ends[k..];
      assert ends[1..][k - 2] == ends[k - 1];
    }
  }

  /** In the engine's choice, element `k` takes the first candidate after which the rest
      of the pattern can still match. */
  lemma {:induction false} PreferredAt(p: seq<Element>, s: string, i: nat, ends: seq<nat>, k: nat)
    requires Preferred(p, s, i, ends) && k < |p|
    ensures var st := if k == 0 then i else ends[k - 1];
            st <= |s| &&
            var cs := Candidates(p[k], s, st);
            exists idx :: 0 <= idx < |cs| && cs[idx] == ends[k]
                          && forall idx' :: 0 <= idx' < idx ==> !CanMatch(p[k + 1..], s, cs[idx'])
    decreases k
  {
    if k > 0 {
      PreferredAt(p[1..], s, ends[0], ends[1..], k - 1);
      assert p[1..][k - 1] == p[k];
      assert p[1..][k..] == p[k + 1..];
      if k > 1 { assert ends[1..][k - 2] == ends[k - 1]; }
    }
  }

  /** A match found by `search`: where it starts and where each element ends. */
  datatype Found = Found(start: nat, ends: seq<nat>)

  /** `search` for pattern `p` from position `q` on. */
  function SearchFrom(p: seq<Element>, s: string, q: nat): (r: Option<Found>)
    requires q <= |s|
    ensures r.Some? ==> q <= r.value.start <= |s| && Match(p, s, r.value.start) == Some(r.value.ends)
    ensures r.Some? ==> forall q' :: q <= q' < r.value.start ==> Match(p, s, q').None?
    decreases |s| - q
  {
    match Match(p, s, q)
    case Some(ends) => Some(Found(q, ends))
    case None => if q < |s| then SearchFrom(p, s, q + 1) else None
  }

  lemma {:induction false} SearchFromFinds(p: seq<Element>, s: string, q: nat, q': nat)
    requires q <= q' <= |s| && Match(p, s, q').Some?
    ensures SearchFrom(p, s, q).Some? && SearchFrom(p, s, q).value.start <= q'
    decreases q' - q
  {
    if Match(p, s, q).None? { SearchFromFinds(p, s, q + 1, q'); }
  }

  /** A well-formed match of `p`. */
  ghost predicate IsFound(p: seq<Element>, s: string, f: Found) {
    f.start <= |s| && IsMatch(p, s, f.start, f.ends)
  }

  /** `search` succeeds exactly when the pattern matches somewhere. */
  lemma {:induction false} SearchIff(p: seq<Element>, s: string)
    ensures SearchFrom(p, s, 0).Some? <==> exists q: nat :: q <= |s| && CanMatch(p, s, q)
  {
    if SearchFrom(p, s, 0).Some? {
      var f := SearchFrom(p, s, 0).value;
      MatchIff(p, s, f.start);
    }
    forall q: nat | q <= |s| && CanMatch(p, s, q) ensures SearchFrom(p, s, 0).Some? {
      MatchIff(p, s, q);
      SearchFromFinds(p, s, 0, q);
    }
  }

  /** What `search` reports is a match, at the leftmost start where there is one, with
      the choices the backtracking engine makes there. */
  lemma {:induction false} SearchFound(p: seq<Element>, s: string)
    requires SearchFrom(p, s, 0).Some?
    ensures var f := SearchFrom(p, s, 0).value;
            IsFound(p, s, f) && Preferred(p, s, f.start, f.ends)
            && forall q: nat :: q < f.start ==> !CanMatch(p, s, q)
  {
    var f := SearchFrom(p, s, 0).value;
    MatchSound(p, s, f.start);
    MatchPreferred(p, s, f.start);
    forall q: nat | q < f.start ensures !CanMatch(p, s, q) { MatchIff(p, s, q); }
  }

  /** A match `search` reports has one end per element, in order, within `s`. */
  lemma {:induction false} SearchShape(p: seq<Element>, s: string)
    requires p != [] && SearchFrom(p, s, 0).Some?
    ensures var f := SearchFrom(p, s, 0).value;
            |f.ends| == |p| && Ordered(f.ends, |s|)
  {
    var f := SearchFrom(p, s, 0).value;
    MatchSound(p, s, f.start);
    MatchOrdered(p, s, f.start, f.ends);
  }

  // ---------------------------------------------------------------- the transaction pattern

  /** The elements of the transaction pattern, in order; the comments give the capture
      groups as spans between element ends. */
  const TransactionRegex: seq<Element> := [
    Literal("rs"),                              // 0
    Optional('.'),                              // 1
    OptionalSpace,                              // 2  amount starts at end 2
    Repeat(AmountChar, 1, None),                // 3
    Optional('.'),                              // 4
    Repeat(Digit, 0, Some(2)),                  // 5  amount ends at end 5
    OptionalSpace,                              // 6  direction starts at end 6
    Alternatives(DirectionWords),               // 7  direction ends at end 7
    LazyAny,                                    // 8
    Alternatives(DateWords),                    // 9
    OptionalSpace,                              // 10 date starts at end 10
    Repeat(Digit, 1, Some(2)),                  // 11
    Repeat(Letter, 3, Some(3)),                 // 12
    Repeat(Digit, 2, Some(2)),                  // 13 date ends at end 13
    LazyAny,                                    // 14
    Alternatives(RefWords),                     // 15
    OptionalSpace,                              // 16 ref starts at end 16
    Repeat(Digit, 1, None),                     // 17 ref ends at end 17
    LazyAny,                                    // 18
    Optional('-'),                              // 19 bank starts at end 19
    Repeat(Letter, 2, None)                     // 20 bank ends at end 20
  ]

  /** The words each alternation of the transaction pattern allows. */
  const DirectionWords: seq<string> := ["debited", "credited"]
  const DateWords: seq<string> := ["on", "dt"]
  const RefWords: seq<string> := ["ref", "ref no", "upi ref"]

  /** The number of elements of the transaction pattern. */
  const Width: nat := 21

  /** Element ends that never move backwards and stay within a string of length `n`. */
  predicate Ordered(ends: seq<nat>, n: nat) {
    forall a, b :: 0 <= a <= b < |ends| ==> ends[a] <= ends[b] <= n
  }

  /** `TRANSACTION_REGEX.search(line)`. */
  function Search(s: string): (r: Option<Found>)
    ensures r.Some? ==> r.value.start <= |s| && |r.value.ends| == Width && Ordered(r.value.ends, |s|)
  {
    var r := SearchFrom(TransactionRegex, s, 0);
    if r.Some? then SearchShape(TransactionRegex, s); r else r
  }

  /** A search that succeeds reports the ends of a match at its start. */
  lemma {:induction false} SearchReports(s: string)
    ensures var r := Search(s);
            r.Some? ==> Match(TransactionRegex, s, r.value.start) == Some(r.value.ends)
  {
  }

  /** The text between the ends of elements `a` and `b`. */
  function Span(s: string, f: Found, a: nat, b: nat): string
    requires |f.ends| == Width && Ordered(f.ends, |s|) && a <= b < Width
  {
    s[f.ends[a]..f.ends[b]]
  }

  /** The named groups of a transaction match. */
  function AmountGroup(s: string, f: Found): string
    requires |f.ends| == Width && Ordered(f.ends, |s|)
  {
    Span(s, f, 2, 5)
  }

  function DirectionGroup(s: string, f: Found): string
    requires |f.ends| == Width && Ordered(f.ends, |s|)
  {
    Span(s, f, 6, 7)
  }

  function DateGroup(s: string, f: Found): string
    requires |f.ends| == Width && Ordered(f.ends, |s|)
  {
    Span(s, f, 10, 13)
  }

  function RefGroup(s: string, f: Found): string
    requires |f.ends| == Width && Ordered(f.ends, |s|)
  {
    Span(s, f, 16, 17)
  }

  function BankGroup(s: string, f: Found): string
    requires |f.ends| == Width && Ordered(f.ends, |s|)
  {
    Span(s, f, 19, 20)
  }

  // ---------------------------------------------------------------- what a transaction match holds

  /** The transaction pattern element by element, for a match from `st` with ends `e`. */
  ghost predicate AmountSteps(s: string, st: nat, e: seq<nat>)
    requires |e| == Width
  {
    Accepts(Literal("rs"), s, st, e[0]) && Accepts(Optional('.'), s, e[0], e[1])
    && Accepts(OptionalSpace, s, e[1], e[2]) && Accepts(Repeat(AmountChar, 1, None), s, e[2], e[3])
    && Accepts(Optional('.'), s, e[3], e[4]) && Accepts(Repeat(Digit, 0, Some(2)), s, e[4], e[5])
  }

  ghost predicate DirectionSteps(s: string, e: seq<nat>)
    requires |e| == Width
  {
    Accepts(OptionalSpace, s, e[5], e[6]) && Accepts(Alternatives(DirectionWords), s, e[6], e[7])
  }

  ghost predicate DateSteps(s: string, e: seq<nat>)
    requires |e| == Width
  {
    Accepts(LazyAny, s, e[7], e[8]) && Accepts(Alternatives(DateWords), s, e[8], e[9])
    && Accepts(OptionalSpace, s, e[9], e[10]) && Accepts(Repeat(Digit, 1, Some(2)), s, e[10], e[11])
    && Accepts(Repeat(Letter, 3, Some(3)), s, e[11], e[12]) && Accepts(Repeat(Digit, 2, Some(2)), s, e[12], e[13])
  }

  ghost predicate RefSteps(s: string, e: seq<nat>)
    requires |e| == Width
  {
    Accepts(LazyAny, s, e[13], e[14]) && Accepts(Alternatives(RefWords), s, e[14], e[15])
    && Accepts(OptionalSpace, s, e[15], e[16]) && Accepts(Repeat(Digit, 1, None), s, e[16], e[17])
  }

  ghost predicate BankSteps(s: string, e: seq<nat>)
    requires |e| == Width
  {
    Accepts(LazyAny, s, e[17], e[18]) && Accepts(Optional('-'), s, e[18], e[19])
    && Accepts(Repeat(Letter, 2, None), s, e[19], e[20])
  }

  /** The last three elements, which decide where the bank is. */
  const BankPart: seq<Element> := [LazyAny, Optional('-'), Repeat(Letter, 2, None)]

  /** Among the candidate ends `cs`, `j` is the first after which `rest` can match. */
  ghost predicate Chosen(cs: seq<nat>, j: nat, rest: seq<Element>, s: string) {
    exists idx :: 0 <= idx < |cs| && cs[idx] == j
                  && forall idx' :: 0 <= idx' < idx ==> !CanMatch(rest, s, cs[idx'])
  }

  /** When the rest can match after the first candidate, that one is chosen. */
  lemma {:induction false} ChosenFirst(cs: seq<nat>, j: nat, rest: seq<Element>, s: string)
    requires Chosen(cs, j, rest, s) && cs != []
    ensures CanMatch(rest, s, cs[0]) ==> j == cs[0]
  {
  }

  /** The engine's choices that decide the reference and the bank: the `\d+` of the
      reference, the `.*?` after it and the `[A-Z]{2,}` of the bank each take the first
      candidate after which the rest can match. */
  ghost predicate RefChoice(s: string, e: seq<nat>)
    requires |e| == Width && Ordered(e, |s|)
  {
    Chosen(Candidates(Repeat(Digit, 1, None), s, e[16]), e[17], BankPart, s)
  }

  ghost predicate GapChoice(s: string, e: seq<nat>)
    requires |e| == Width && Ordered(e, |s|)
  {
    Chosen(Candidates(LazyAny, s, e[17]), e[18], BankPart[1..], s)
  }

  ghost predicate BankChoice(s: string, e: seq<nat>)
    requires |e| == Width && Ordered(e, |s|)
  {
    Chosen(Candidates(Repeat(Letter, 2, None), s, e[19]), e[20], [], s)
  }

  /** The elements `lo .. hi-1` of a match are a match of that slice of the pattern. */
  lemma {:induction false} MatchPart(p: seq<Element>, s: string, i: nat, ends: seq<nat>, lo: nat, hi: nat)
    requires IsMatch(p, s, i, ends) && lo < hi <= |p|
    ensures IsMatch(p[lo..hi], s, if lo == 0 then i else ends[lo - 1], ends[lo..hi])
    decreases hi
  {
    if lo > 0 {
      MatchSuffix(p, s, i, ends, lo);
      MatchPart(p[lo..], s, ends[lo - 1], ends[lo..], 0, hi - lo);
      assert p[lo..][..hi - lo] == p[lo..hi];
      assert ends[lo..][..hi - lo] == ends[lo..hi];
    } else {
      MatchPrefix(p, s, i, ends, hi);
    }
  }

  lemma {:induction false} MatchPrefix(p: seq<Element>, s: string, i: nat, ends: seq<nat>, hi: nat)
    requires IsMatch(p, s, i, ends) && hi <= |p|
    ensures IsMatch(p[..hi], s, i, ends[..hi])
    decreases hi
  {
    if hi > 0 {
      MatchPrefix(p[1..], s, ends[0], ends[1..], hi - 1);
      assert p[..hi][1..] == p[1..][..hi - 1];
      assert ends[..hi][1..] == ends[1..][..hi - 1];
    }
  }

  const AmountPart: seq<Element> := [Literal("rs"), Optional('.'), OptionalSpace, Repeat(AmountChar, 1, None), Optional('.'), Repeat(Digit, 0, Some(2))]

  const DirectionPart: seq<Element> := [OptionalSpace, Alternatives(DirectionWords)]

  const DatePart: seq<Element> := [LazyAny, Alternatives(DateWords), OptionalSpace, Repeat(Digit, 1, Some(2)), Repeat(Letter, 3, Some(3)), Repeat(Digit, 2, Some(2))]

  const RefPart: seq<Element> := [LazyAny, Alternatives(RefWords), OptionalSpace, Repeat(Digit, 1, None)]

  lemma {:induction false} AmountOfMatch(p: seq<Element>, s: string, st: nat, e: seq<nat>)
    requires IsMatch(p, s, st, e) && |p| == Width && p[0..6] == AmountPart
    ensures |e| == Width && AmountSteps(s, st, e)
  {
    StepIn(p, s, st, e, AmountPart, 0, 0);
    forall k | 1 <= k < 6 ensures Accepts(AmountPart[k], s, e[k - 1], e[k]) {
      StepIn(p, s, st, e, AmountPart, 0, k);
    }
    AmountStepsFrom(s, st, e);
  }

  lemma {:induction false} AmountStepsFrom(s: string, st: nat, e: seq<nat>)
    requires |e| == Width && Accepts(AmountPart[0], s, st, e[0])
    requires forall k :: 1 <= k < 6 ==> Accepts(AmountPart[k], s, e[k - 1], e[k])
    ensures AmountSteps(s, st, e)
  {
    assert Accepts(AmountPart[1], s, e[0], e[1]) && Accepts(AmountPart[2], s, e[1], e[2]);
    assert Accepts(AmountPart[3], s, e[2], e[3]) && Accepts(AmountPart[4], s, e[3], e[4]);
    assert Accepts(AmountPart[5], s, e[4], e[5]);
  }

  lemma {:induction false} DirectionOfMatch(p: seq<Element>, s: string, st: nat, e: seq<nat>)
    requires IsMatch(p, s, st, e) && |p| == Width && p[6..8] == DirectionPart
    ensures |e| == Width && DirectionSteps(s, e)
  {
    PartSteps(p, s, st, e, DirectionPart, 6);
    DirectionStepsFrom(s, e);
  }

  lemma {:induction false} DirectionStepsFrom(s: string, e: seq<nat>)
    requires |e| == Width && forall k :: 6 <= k < 8 ==> Accepts(DirectionPart[k - 6], s, e[k - 1], e[k])
    ensures DirectionSteps(s, e)
  {
    assert Accepts(DirectionPart[0], s, e[5], e[6]) && Accepts(DirectionPart[1], s, e[6], e[7]);
  }

  lemma {:induction false} DateOfMatch(p: seq<Element>, s: string, st: nat, e: seq<nat>)
    requires IsMatch(p, s, st, e) && |p| == Width && p[8..14] == DatePart
    ensures |e| == Width && DateSteps(s, e)
  {
    PartSteps(p, s, st, e, DatePart, 8);
    DateStepsFrom(s, e);
  }

  lemma {:induction false} DateStepsFrom(s: string, e: seq<nat>)
    requires |e| == Width && forall k :: 8 <= k < 14 ==> Accepts(DatePart[k - 8], s, e[k - 1], e[k])
    ensures DateSteps(s, e)
  {
    assert Accepts(DatePart[0], s, e[7], e[8]) && Accepts(DatePart[1], s, e[8], e[9]);
    assert Accepts(DatePart[2], s, e[9], e[10]) && Accepts(DatePart[3], s, e[10], e[11]);
    assert Accepts(DatePart[4], s, e[11], e[12]) && Accepts(DatePart[5], s, e[12], e[13]);
  }

  lemma {:induction false} RefOfMatch(p: seq<Element>, s: string, st: nat, e: seq<nat>)
    requires IsMatch(p, s, st, e) && |p| == Width && p[14..18] == RefPart
    ensures |e| == Width && RefSteps(s, e)
  {
    PartSteps(p, s, st, e, RefPart, 14);
    RefStepsFrom(s, e);
  }

  lemma {:induction false} RefStepsFrom(s: string, e: seq<nat>)
    requires |e| == Width && forall k :: 14 <= k < 18 ==> Accepts(RefPart[k - 14], s, e[k - 1], e[k])
    ensures RefSteps(s, e)
  {
    assert Accepts(RefPart[0], s, e[13], e[14]) && Accepts(RefPart[1], s, e[14], e[15]);
    assert Accepts(RefPart[2], s, e[15], e[16]) && Accepts(RefPart[3], s, e[16], e[17]);
  }

  lemma {:induction false} BankOfMatch(p: seq<Element>, s: string, st: nat, e: seq<nat>)
    requires IsMatch(p, s, st, e) && |p| == Width && p[18..21] == BankPart
    ensures |e| == Width && BankSteps(s, e)
  {
    PartSteps(p, s, st, e, BankPart, 18);
    BankStepsFrom(s, e);
  }

  lemma {:induction false} BankStepsFrom(s: string, e: seq<nat>)
    requires |e| == Width && forall k :: 18 <= k < 21 ==> Accepts(BankPart[k - 18], s, e[k - 1], e[k])
    ensures BankSteps(s, e)
  {
    assert Accepts(BankPart[0], s, e[17], e[18]) && Accepts(BankPart[1], s, e[18], e[19]);
    assert Accepts(BankPart[2], s, e[19], e[20]);
  }

  /** Element `k` of a match, the element `k - lo` of the part `q` that starts at `lo`,
      accepts the text between the end of the one before it (or the start) and its own
      end. */
  lemma {:induction false} StepIn(p: seq<Element>, s: string, st: nat, e: seq<nat>, q: seq<Element>, lo: nat, k: nat)
    requires IsMatch(p, s, st, e) && lo + |q| <= |p| && p[lo..lo + |q|] == q && lo <= k < lo + |q|
    ensures |e| == |p| && Accepts(q[k - lo], s, if k == 0 then st else e[k - 1], e[k])
  {
    assert p[k] == p[lo..lo + |q|][k - lo];
    MatchAt(p, s, st, e, k);
  }

  /** Every element of a part `q` of a match that starts at `lo > 0` accepts the text
      between the end of the element before it and its own end. */
  lemma {:induction false} PartSteps(p: seq<Element>, s: string, st: nat, e: seq<nat>, q: seq<Element>, lo: nat)
    requires IsMatch(p, s, st, e) && 0 < lo && lo + |q| <= |p| && p[lo..lo + |q|] == q
    ensures |e| == |p| && forall k :: lo <= k < lo + |q| ==> Accepts(q[k - lo], s, e[k - 1], e[k])
  {
    forall k | lo <= k < lo + |q| ensures Accepts(q[k - lo], s, e[k - 1], e[k]) {
      StepIn(p, s, st, e, q, lo, k);
    }
  }

  /** The transaction pattern is its five parts one after another. */
  lemma {:induction false} TransactionParts()
    ensures TransactionRegex[0..6] == AmountPart && TransactionRegex[6..8] == DirectionPart
    ensures TransactionRegex[8..14] == DatePart && TransactionRegex[14..18] == RefPart
    ensures TransactionRegex[18..21] == BankPart && TransactionRegex[18..] == BankPart
    ensures TransactionRegex[17] == Repeat(Digit, 1, None) && |TransactionRegex| == Width
  {
  }

  /** The choices of the last four elements in the engine's match. */
  lemma {:induction false} ChoicesOfPreferred(p: seq<Element>, s: string, st: nat, e: seq<nat>)
    requires Preferred(p, s, st, e) && |p| == Width && |e| == |p| && Ordered(e, |s|)
    requires p[17] == Repeat(Digit, 1, None) && p[18..] == BankPart
    ensures RefChoice(s, e) && GapChoice(s, e) && BankChoice(s, e)
  {
    assert p[19..] == BankPart[1..] && p[21..] == [];
    assert p[18] == LazyAny && p[20] == Repeat(Letter, 2, None);
    PreferredAt(p, s, st, e, 17);
    PreferredAt(p, s, st, e, 18);
    PreferredAt(p, s, st, e, 20);
  }

  /** A match `search` reports is a match of the transaction pattern. */
  lemma {:induction false} SearchMatch(s: string)
    requires Search(s).Some?
    ensures IsFound(TransactionRegex, s, Search(s).value)
  {
    SearchReports(s);
    MatchSound(TransactionRegex, s, Search(s).value.start);
  }

  /** What the engine's choices in a reported match imply for the last four elements. */
  lemma {:induction false} SearchChoices(s: string)
    requires Search(s).Some?
    ensures var f := Search(s).value; RefChoice(s, f.ends) && GapChoice(s, f.ends) && BankChoice(s, f.ends)
  {
    var f := Search(s).value;
    SearchReports(s);
    MatchPreferred(TransactionRegex, s, f.start);
    TransactionParts();
    ChoicesOfPreferred(TransactionRegex, s, f.start, f.ends);
  }

  lemma {:induction false} AmountOfSearch(s: string)
    requires Search(s).Some?
    ensures var f := Search(s).value; AmountSteps(s, f.start, f.ends)
  {
    var f := Search(s).value;
    SearchMatch(s);
    TransactionParts();
    AmountOfMatch(TransactionRegex, s, f.start, f.ends);
  }

  lemma {:induction false} DirectionOfSearch(s: string)
    requires Search(s).Some?
    ensures var f := Search(s).value; DirectionSteps(s, f.ends)
  {
    var f := Search(s).value;
    SearchMatch(s);
    TransactionParts();
    DirectionOfMatch(TransactionRegex, s, f.start, f.ends);
  }

  lemma {:induction false} DateOfSearch(s: string)
    requires Search(s).Some?
    ensures var f := Search(s).value; DateSteps(s, f.ends)
  {
    var f := Search(s).value;
    SearchMatch(s);
    TransactionParts();
    DateOfMatch(TransactionRegex, s, f.start, f.ends);
  }

  lemma {:induction false} RefOfSearch(s: string)
    requires Search(s).Some?
    ensures var f := Search(s).value; RefSteps(s, f.ends)
  {
    var f := Search(s).value;
    SearchMatch(s);
    TransactionParts();
    RefOfMatch(TransactionRegex, s, f.start, f.ends);
  }

  lemma {:induction false} BankOfSearch(s: string)
    requires Search(s).Some?
    ensures var f := Search(s).value; BankSteps(s, f.ends)
  {
    var f := Search(s).value;
    SearchMatch(s);
    TransactionParts();
    BankOfMatch(TransactionRegex, s, f.start, f.ends);
  }

  /** `Rs` (any case), an optional `.`, an optional space, then the amount: digits and
      commas, an optional `.`, and at most two more digits. */
  lemma {:induction false} TransactionAmount(s: string, st: nat, e: seq<nat>)
    requires |e| == Width && AmountSteps(s, st, e)
    ensures LitAt(s, st, "rs") && e[0] == st + 2
    ensures e[1] == e[0] || (e[1] == e[0] + 1 && e[0] < |s| && s[e[0]] == '.')
    ensures e[2] == e[1] || (e[2] == e[1] + 1 && e[1] < |s| && IsSpace(s[e[1]]))
    ensures e[2] < e[3] && AllIn(s, e[2], e[3], AmountChar)
    ensures e[4] == e[3] || (e[4] == e[3] + 1 && e[3] < |s| && s[e[3]] == '.')
    ensures e[4] <= e[5] <= e[4] + 2 && AllIn(s, e[4], e[5], Digit)
  {
  }

  /** Right after the amount (at most one space between) comes `debited` or `credited`,
      in any case. */
  lemma {:induction false} TransactionDirection(s: string, e: seq<nat>)
    requires |e| == Width && DirectionSteps(s, e)
    ensures e[6] == e[5] || (e[6] == e[5] + 1 && e[5] < |s| && IsSpace(s[e[5]]))
    ensures e[6] <= e[7] <= |s|
    ensures Lower(s[e[6]..e[7]]) in ["debited", "credited"]
  {
    AlternativeText(s, e[6], DirectionWords, e[7]);
  }

  /** Later on the same line, `on` or `dt` (any case), an optional space and the date
      token: one or two digits, three letters, two digits. */
  lemma {:induction false} TransactionDate(s: string, e: seq<nat>)
    requires |e| == Width && DateSteps(s, e)
    ensures e[7] <= e[8] && AllIn(s, e[7], e[8], NotNewline)
    ensures (LitAt(s, e[8], "on") || LitAt(s, e[8], "dt")) && e[9] == e[8] + 2
    ensures e[10] == e[9] || (e[10] == e[9] + 1 && e[9] < |s| && IsSpace(s[e[9]]))
    ensures e[10] + 1 <= e[11] <= e[10] + 2 && AllIn(s, e[10], e[11], Digit)
    ensures e[12] == e[11] + 3 && AllIn(s, e[11], e[12], Letter)
    ensures e[13] == e[12] + 2 && AllIn(s, e[12], e[13], Digit)
  {
    var w :| w in DateWords && LitAt(s, e[8], w) && e[9] == e[8] + |w|;
  }

  /** Later still, `Ref`, `Ref No` or `UPI Ref` (any case), an optional space and the
      reference: a non-empty run of digits. */
  lemma {:induction false} TransactionRef(s: string, e: seq<nat>)
    requires |e| == Width && RefSteps(s, e)
    ensures e[13] <= e[14] && AllIn(s, e[13], e[14], NotNewline)
    ensures (LitAt(s, e[14], "ref") && e[15] == e[14] + 3)
            || (LitAt(s, e[14], "ref no") && e[15] == e[14] + 6)
            || (LitAt(s, e[14], "upi ref") && e[15] == e[14] + 7)
    ensures e[16] == e[15] || (e[16] == e[15] + 1 && e[15] < |s| && IsSpace(s[e[15]]))
    ensures e[16] < e[17] && AllIn(s, e[16], e[17], Digit)
  {
    var w :| w in RefWords && LitAt(s, e[14], w) && e[15] == e[14] + |w|;
  }

  lemma {:induction false} AllInSuffix(s: string, lo: nat, mid: nat, hi: nat, k: Class)
    requires AllIn(s, lo, hi, k) && lo <= mid <= hi
    ensures AllIn(s, mid, hi, k)
    decreases mid - lo
  {
    if lo < mid { AllInSuffix(s, lo + 1, mid, hi, k); }
  }

  /** The candidates of an unbounded greedy repeat: the longest run first, down to `min`. */
  lemma {:induction false} RepeatCandidates(s: string, i: nat, k: Class, min: nat)
    requires i <= |s|
    ensures Candidates(Repeat(k, min, None), s, i) == Down(i + Run(s, i, k), i + min)
  {
    var e := Repeat(k, min, None);
    assert e.Repeat? && e.k == k && e.min == min && e.max.None?;
    var n := Run(s, i, k);
    assert Candidates(e, s, i) == Down(i + n, i + min);
  }

  /** The candidates of `.*?`: the shortest first, up to the end of the line. */
  lemma {:induction false} LazyCandidates(s: string, i: nat)
    requires i <= |s|
    ensures Candidates(LazyAny, s, i) == Up(i, i + Run(s, i, NotNewline))
  {
  }

  lemma {:induction false} CanMatchEmpty(s: string, i: nat)
    ensures CanMatch([], s, i)
  {
    assert IsMatch([], s, i, []);
  }

  /** `-?[A-Z]{2,}` matches from `a` with the given ends. */
  lemma {:induction false} BankLettersMatch(s: string, a: nat, b: nat, c: nat)
    requires Accepts(Optional('-'), s, a, b) && Accepts(Repeat(Letter, 2, None), s, b, c)
    ensures CanMatch(BankPart[1..], s, a)
  {
    assert IsMatch([], s, c, []);
    assert IsMatch(BankPart[2..], s, b, [c]);
    assert IsMatch(BankPart[1..], s, a, [b, c]);
  }

  /** `.*?-?[A-Z]{2,}` matches from `a` with the given ends. */
  lemma {:induction false} BankPartMatch(s: string, a: nat, b: nat, c: nat, d: nat)
    requires Accepts(LazyAny, s, a, b) && Accepts(Optional('-'), s, b, c)
    requires Accepts(Repeat(Letter, 2, None), s, c, d)
    ensures CanMatch(BankPart, s, a)
  {
    assert IsMatch([], s, d, []);
    assert IsMatch(BankPart[2..], s, c, [d]);
    assert IsMatch(BankPart[1..], s, b, [c, d]);
    assert IsMatch(BankPart, s, a, [b, c, d]);
  }

  /** If the reference stopped inside its digit run, the rest of the pattern could also
      match from the end of that run, since the bank letters lie beyond it. */
  lemma {:induction false} BankAfterDigits(s: string, e: seq<nat>)
    requires |e| == Width && BankSteps(s, e)
    requires Accepts(Repeat(Digit, 1, None), s, e[16], e[17])
    ensures e[17] < e[16] + Run(s, e[16], Digit) ==> CanMatch(BankPart, s, e[16] + Run(s, e[16], Digit))
  {
    var st := e[16];
    var top := st + Run(s, st, Digit);
    if e[17] < top {
      assert AllIn(s, st, top, Digit);
      if e[19] < top {
        AllInAt(s, e[19], e[20], Letter, e[19]);
        AllInAt(s, st, top, Digit, e[19]);
        assert false;
      }
      if e[18] < top {
        AllInAt(s, st, top, Digit, e[18]);
        assert false;
      }
      AllInSuffix(s, e[17], top, e[18], NotNewline);
      BankPartMatch(s, top, e[18], e[19], e[20]);
    }
  }

  /** The greedy `\d+` of the reference takes the whole digit run: from the end of the
      run the rest of the pattern matches too, and that end is tried first. */
  lemma {:induction false} RefTakesWholeRun(s: string, e: seq<nat>)
    requires |e| == Width && Ordered(e, |s|)
    requires Accepts(Repeat(Digit, 1, None), s, e[16], e[17]) && BankSteps(s, e) && RefChoice(s, e)
    ensures e[17] == e[16] + Run(s, e[16], Digit)
    ensures e[17] < |s| ==> !InClass(s[e[17]], Digit)
  {
    var st := e[16];
    var top := st + Run(s, st, Digit);
    RunCovers(s, st, e[17], Digit);
    RepeatCandidates(s, st, Digit, 1);
    var cs := Candidates(Repeat(Digit, 1, None), s, st);
    BankAfterDigits(s, e);
    // and that end comes first among the candidates
    ChosenTop(cs, e[17], BankPart, s, top);
  }

  /** A choice no later than the first candidate `top`, where the rest could also match
      after `top` if the choice were earlier, is `top`. */
  lemma {:induction false} ChosenTop(cs: seq<nat>, j: nat, rest: seq<Element>, s: string, top: nat)
    requires cs != [] && cs[0] == top && j <= top
    requires Chosen(cs, j, rest, s) && (j < top ==> CanMatch(rest, s, top))
    ensures j == top
  {
    ChosenFirst(cs, j, rest, s);
  }

  /** After an optional `-`, the bank: two or more letters after the reference, on the
      same line. */
  lemma {:induction false} TransactionBank(s: string, e: seq<nat>)
    requires |e| == Width && BankSteps(s, e)
    ensures e[17] <= e[18] && AllIn(s, e[17], e[18], NotNewline)
    ensures e[19] == e[18] || (e[19] == e[18] + 1 && e[18] < |s| && s[e[18]] == '-')
    ensures e[19] + 2 <= e[20] && AllIn(s, e[19], e[20], Letter)
  {
  }

  /** The greedy `[A-Z]{2,}` takes the whole letter run, since nothing follows it. */
  lemma {:induction false} BankTakesWholeRun(s: string, e: seq<nat>)
    requires |e| == Width && Ordered(e, |s|) && BankChoice(s, e)
    ensures e[20] == e[19] + Run(s, e[19], Letter)
  {
    RepeatCandidates(s, e[19], Letter, 2);
    var cs := Candidates(Repeat(Letter, 2, None), s, e[19]);
    var idx :| 0 <= idx < |cs| && cs[idx] == e[20]
               && forall idx' :: 0 <= idx' < idx ==> !CanMatch([], s, cs[idx']);
    if idx > 0 { CanMatchEmpty(s, cs[0]); assert false; }
  }

  /** The lazy `.*?` before the bank stops at the first place where `-?[A-Z]{2,}` can
      follow, so no pair of letters starts between the reference and the bank. */
  lemma {:induction false} BankIsFirstLetterPair(s: string, e: seq<nat>)
    requires |e| == Width && Ordered(e, |s|) && BankSteps(s, e) && GapChoice(s, e)
    ensures forall j :: e[17] <= j < e[19] ==> !LetterPairAt(s, j)
  {
    LazyCandidates(s, e[17]);
    var cs := Candidates(LazyAny, s, e[17]);
    var ci :| 0 <= ci < |cs| && cs[ci] == e[18]
              && forall idx' :: 0 <= idx' < ci ==> !CanMatch(BankPart[1..], s, cs[idx']);
    forall j | e[17] <= j < e[19] ensures !LetterPairAt(s, j) {
      if j < e[18] && LetterPairAt(s, j) {
        assert cs[j - e[17]] == j;
        assert AllIn(s, j, j + 2, Letter);
        BankLettersMatch(s, j, j, j + 2);
        assert false;
      }
    }
  }

  /** A pair of letters starts at `i`. */
  predicate LetterPairAt(s: string, i: nat) {
    i + 1 < |s| && InClass(s[i], Letter) && InClass(s[i + 1], Letter)
  }

  // ---------------------------------------------------------------- the named groups

  /** The text of an `amount` group: digits and commas, then at most one `.`, then at most
      two digits. */
  ghost predicate AmountShaped(g: string) {
    exists k1, k2 :: 1 <= k1 <= k2 <= |g| && k2 <= k1 + 1 && |g| <= k2 + 2
                     && AllOf(g[..k1], AmountChar) && (k2 == k1 + 1 ==> g[k1] == '.')
                     && AllOf(g[k2..], Digit)
  }

  /** The text of a `date` group: one or two digits, three letters, two digits. */
  ghost predicate DateShaped(g: string) {
    exists n :: 1 <= n <= 2 && |g| == n + 5
                && AllOf(g[..n], Digit) && AllOf(g[n..n + 3], Letter) && AllOf(g[n + 3..], Digit)
  }

  lemma {:induction false} Subslice(s: string, lo: nat, hi: nat, a: nat, b: nat)
    requires lo <= hi <= |s| && a <= b <= hi - lo
    ensures s[lo..hi][a..b] == s[lo + a..lo + b]
    ensures b == hi - lo ==> s[lo..hi][a..] == s[lo + a..hi]
  {
    assert forall i :: 0 <= i < b - a ==> s[lo..hi][a..b][i] == s[lo + a..lo + b][i];
  }

  /** The amount text between the ends of elements 2 and 5 of a match. */
  lemma {:induction false} AmountText(s: string, st: nat, e: seq<nat>)
    requires |e| == Width && AmountSteps(s, st, e)
    ensures e[2] <= e[5] <= |s| && AmountShaped(s[e[2]..e[5]])
  {
    TransactionAmount(s, st, e);
    var g := s[e[2]..e[5]];
    AllInSlice(s, e[2], e[3], AmountChar);
    AllInSlice(s, e[4], e[5], Digit);
    var k1, k2 := e[3] - e[2], e[4] - e[2];
    Subslice(s, e[2], e[5], 0, k1);
    Subslice(s, e[2], e[5], k2, e[5] - e[2]);
    if k2 == k1 + 1 { assert g[k1] == s[e[3]]; }
  }

  /** The date text: the three repeats of the date group, one after another. */
  lemma {:induction false} DateText(s: string, a: nat, b: nat, c: nat, d: nat)
    requires Accepts(Repeat(Digit, 1, Some(2)), s, a, b) && Accepts(Repeat(Letter, 3, Some(3)), s, b, c)
    requires Accepts(Repeat(Digit, 2, Some(2)), s, c, d)
    ensures a <= d <= |s| && DateShaped(s[a..d])
  {
    var n := b - a;
    AllInSlice(s, a, b, Digit);
    AllInSlice(s, b, c, Letter);
    AllInSlice(s, c, d, Digit);
    Subslice(s, a, d, 0, n);
    Subslice(s, a, d, n, n + 3);
    Subslice(s, a, d, n + 3, n + 5);
  }

  lemma {:induction false} AmountGroupShape(s: string)
    requires Search(s).Some?
    ensures AmountShaped(AmountGroup(s, Search(s).value))
  {
    var f := Search(s).value;
    AmountOfSearch(s);
    AmountText(s, f.start, f.ends);
  }

  lemma {:induction false} DirectionGroupText(s: string)
    requires Search(s).Some?
    ensures Lower(DirectionGroup(s, Search(s).value)) in ["debited", "credited"]
  {
    var f := Search(s).value;
    DirectionOfSearch(s);
    TransactionDirection(s, f.ends);
  }

  lemma {:induction false} DateGroupShape(s: string)
    requires Search(s).Some?
    ensures DateShaped(DateGroup(s, Search(s).value))
  {
    var f := Search(s).value;
    DateOfSearch(s);
    DateText(s, f.ends[10], f.ends[11], f.ends[12], f.ends[13]);
  }

  /** The reference is the whole run of digits after the reference keyword. */
  lemma {:induction false} RefGroupShape(s: string)
    requires Search(s).Some?
    ensures var f := Search(s).value;
            |RefGroup(s, f)| >= 1 && AllOf(RefGroup(s, f), Digit)
            && (f.ends[17] < |s| ==> !InClass(s[f.ends[17]], Digit))
  {
    var f := Search(s).value;
    RefOfSearch(s);
    BankOfSearch(s);
    SearchChoices(s);
    RefDigits(s, f.ends);
  }

  lemma {:induction false} RefDigits(s: string, e: seq<nat>)
    requires |e| == Width && Ordered(e, |s|)
    requires RefSteps(s, e) && BankSteps(s, e) && RefChoice(s, e)
    ensures |s[e[16]..e[17]]| >= 1 && AllOf(s[e[16]..e[17]], Digit)
    ensures e[17] < |s| ==> !InClass(s[e[17]], Digit)
  {
    AllInSlice(s, e[16], e[17], Digit);
    RefTakesWholeRun(s, e);
  }

  /** The bank is a whole run of two or more letters, and it is the first pair of letters
      after the reference. */
  lemma {:induction false} BankGroupShape(s: string)
    requires Search(s).Some?
    ensures var f := Search(s).value;
            |BankGroup(s, f)| >= 2 && AllOf(BankGroup(s, f), Letter)
            && (f.ends[20] < |s| ==> !InClass(s[f.ends[20]], Letter))
            && forall j :: f.ends[17] <= j < f.ends[19] ==> !LetterPairAt(s, j)
  {
    var f := Search(s).value;
    BankOfSearch(s);
    SearchChoices(s);
    BankLetters(s, f.ends);
  }

  lemma {:induction false} BankLetters(s: string, e: seq<nat>)
    requires |e| == Width && Ordered(e, |s|)
    requires BankSteps(s, e) && GapChoice(s, e) && BankChoice(s, e)
    ensures |s[e[19]..e[20]]| >= 2 && AllOf(s[e[19]..e[20]], Letter)
    ensures e[20] < |s| ==> !InClass(s[e[20]], Letter)
    ensures forall j :: e[17] <= j < e[19] ==> !LetterPairAt(s, j)
  {
    TransactionBank(s, e);
    AllInSlice(s, e[19], e[20], Letter);
    BankTakesWholeRun(s, e);
    BankIsFirstLetterPair(s, e);
  }
}
