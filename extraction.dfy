/** PubMedClient._extract_methods: locate the methods section of an article, first by section
    titles, then by a regular expression over the body text. */
module Extraction {
  import opened Wrappers
  import opened Text
  import opened Xml

  /** Title phrases that mark a methods section, compared against the lower-cased title. */
  const METHODS_TITLES: seq<string> := [
    "methods", "materials and methods", "experimental procedures",
    "methodology", "experimental methods", "materials & methods",
    "experimental section", "experimental"
  ]

  /** The body-text patterns of the fallback, in the order they are tried. */
  const BODY_PATTERNS: seq<string> := ["Materials and Methods", "Methods", "Experimental"]

  /** The words that end the captured text: `(?:Results|Discussion|Conclusion)`. */
  const TERMINATORS: seq<string> := ["Results", "Discussion", "Conclusion"]

  // ---------------------------------------------------------------------------------------
  // Stage 1: titled sections

  /** root.iter("sec"): every `sec` element, the root included, in document order. */
  function Sections(root: Node): seq<Node> {
    IterTag(root, "sec")
  }

  /** `any(method_title in title_text for method_title in methods_titles)` */
  predicate IsMethodsTitle(titleText: string) {
    exists k :: 0 <= k < |METHODS_TITLES| && Contains(titleText, METHODS_TITLES[k])
  }

  /** The section has a direct `title` child whose lower-cased text names a methods section. */
  predicate TitleMatches(sec: Node) {
    match FindChild(sec, "title")
    case None => false
    case Some(t) => IsMethodsTitle(Lower(t.text.GetOr("")))
  }

  /** The position of the first section of `secs[from..]` whose title matches. */
  function FirstMethodsSection(secs: seq<Node>, from: nat): (r: Option<nat>)
    requires from <= |secs|
    ensures r.Some? ==> from <= r.value < |secs| && TitleMatches(secs[r.value])
    ensures r.Some? ==> forall j :: from <= j < r.value ==> !TitleMatches(secs[j])
    ensures r.None? ==> forall j :: from <= j < |secs| ==> !TitleMatches(secs[j])
    decreases |secs| - from
  {
    if from == |secs| then None
    else if TitleMatches(secs[from]) then Some(from)
    else FirstMethodsSection(secs, from + 1)
  }

  /** What one element adds to the section text: its stripped text, then its stripped tail,
      each only when non-empty. */
  function NodePieces(n: Node): seq<string> {
    (if NonEmpty(n.text) then [Strip(n.text.value)] else [])
    + (if NonEmpty(n.tail) then [Strip(n.tail.value)] else [])
  }

  function Pieces(nodes: seq<Node>): seq<string> {
    if nodes == [] then [] else NodePieces(nodes[0]) + Pieces(nodes[1..])
  }

  lemma {:induction false} PiecesAppend(a: seq<Node>, b: seq<Node>)
    ensures Pieces(a + b) == Pieces(a) + Pieces(b)
  {
    if a == [] {
      assert a + b == b;
    } else {
      assert (a + b)[1..] == a[1..] + b;
      PiecesAppend(a[1..], b);
    }
  }

  lemma PiecesOfOne(n: Node)
    ensures Pieces([n]) == NodePieces(n)
  {
    assert [n][1..] == [];
  }

  /** The text stage 1 returns for a section: the pieces of every element of sec.iter() (the
      section itself and its title included), joined by single spaces. */
  function SectionText(sec: Node): string {
    Join(" ", Pieces(Iter(sec)))
  }

  // ---------------------------------------------------------------------------------------
  // Stage 2: re.search(rf"{pattern}[:\s]+(.*?)(?:Results|Discussion|Conclusion)", body_text,
  //                    re.IGNORECASE | re.DOTALL)

  /** `[:\s]` */
  predicate IsSeparator(c: char) {
    c == ':' || IsSpace(c)
  }

  /** `pat` occurs in `s` at position i, ignoring ASCII case. */
  predicate CiOccursAt(s: string, i: nat, pat: string) {
    i + |pat| <= |s| && Lower(s[i..i + |pat|]) == Lower(pat)
  }

  /** One of the terminating words starts at position p. */
  predicate TerminatorAt(s: string, p: nat) {
    CiOccursAt(s, p, TERMINATORS[0]) || CiOccursAt(s, p, TERMINATORS[1]) || CiOccursAt(s, p, TERMINATORS[2])
  }

  /** The end of the longest run of separators starting at j: where the greedy `[:\s]+` stops. */
  function SkipSeparators(s: string, j: nat): (e: nat)
    requires j <= |s|
    ensures j <= e <= |s|
    decreases |s| - j
  {
    if j < |s| && IsSeparator(s[j]) then SkipSeparators(s, j + 1) else j
  }

  /** Everything skipped is a separator, and what follows is not. */
  lemma {:induction false} SkipSeparatorsSpec(s: string, j: nat)
    requires j <= |s|
    ensures forall q :: j <= q < SkipSeparators(s, j) ==> IsSeparator(s[q])
    ensures SkipSeparators(s, j) == |s| || !IsSeparator(s[SkipSeparators(s, j)])
    decreases |s| - j
  {
    if j < |s| && IsSeparator(s[j]) {
      SkipSeparatorsSpec(s, j + 1);
    }
  }

  /** The first position at or after p where a terminating word starts: where the lazy `(.*?)` stops. */
  function NextTerminator(s: string, p: nat): (r: Option<nat>)
    requires p <= |s|
    ensures r.Some? ==> p <= r.value <= |s|
    decreases |s| - p
  {
    if TerminatorAt(s, p) then Some(p)
    else if p == |s| then None
    else NextTerminator(s, p + 1)
  }

  /** NextTerminator finds a terminating word, and the first one. */
  lemma {:induction false} NextTerminatorSpec(s: string, p: nat)
    requires p <= |s|
    ensures NextTerminator(s, p).Some? ==> TerminatorAt(s, NextTerminator(s, p).value)
    ensures NextTerminator(s, p).Some? ==> forall q :: p <= q < NextTerminator(s, p).value ==> !TerminatorAt(s, q)
    ensures NextTerminator(s, p).None? ==> forall q :: p <= q <= |s| ==> !TerminatorAt(s, q)
    decreases |s| - p
  {
    if !TerminatorAt(s, p) && p < |s| {
      NextTerminatorSpec(s, p + 1);
    }
  }

  /** The expression matches with its match starting at i. Giving back separators to `(.*?)`
      never helps, since no terminating word starts with a separator; so the match exists exactly
      when a terminating word follows the longest separator run. */
  predicate MatchAt(s: string, pat: string, i: nat) {
    && CiOccursAt(s, i, pat)
    && i + |pat| < |s|
    && IsSeparator(s[i + |pat|])
    && NextTerminator(s, SkipSeparators(s, i + |pat|)).Some?
  }

  /** match.group(1) for a match starting at i. */
  function Capture(s: string, pat: string, i: nat): string
    requires MatchAt(s, pat, i)
  {
    var e := SkipSeparators(s, i + |pat|);
    s[e..NextTerminator(s, e).value]
  }

  /** The leftmost start, from i on, at which the expression matches: re.search tries each
      start position in turn. */
  function LeftmostMatch(s: string, pat: string, i: nat): (r: Option<nat>)
    requires i <= |s| + 1
    ensures r.Some? ==> i <= r.value <= |s| && MatchAt(s, pat, r.value)
    ensures r.Some? ==> forall k :: i <= k < r.value ==> !MatchAt(s, pat, k)
    ensures r.None? ==> forall k :: i <= k <= |s| ==> !MatchAt(s, pat, k)
    decreases |s| + 1 - i
  {
    if i > |s| then None
    else if MatchAt(s, pat, i) then Some(i)
    else LeftmostMatch(s, pat, i + 1)
  }

  /** re.search(pat + the separator and group, s): the group of the leftmost match, or None. */
  function Search(s: string, pat: string): Option<string> {
    match LeftmostMatch(s, pat, 0)
    case Some(k) => Some(Capture(s, pat, k))
    case None => None
  }

  /** An occurrence inside a slice is an occurrence in the whole string. */
  lemma CiOccursInSlice(s: string, e: nat, p: nat, q: nat, t: string)
    requires e <= p <= |s| && CiOccursAt(s[e..p], q, t)
    ensures CiOccursAt(s, e + q, t)
  {
    assert q + |t| <= p - e;
    var inner, outer := s[e..p][q..q + |t|], s[e + q..e + q + |t|];
    forall k | 0 <= k < |t| ensures inner[k] == outer[k] {
      assert inner[k] == s[e..p][q + k] == s[e + q + k];
    }
    assert inner == outer;
    assert Lower(s[e + q..e + q + |t|]) == Lower(t);
  }

  /** The captured text holds no terminating word: the capture stops at the first one. */
  lemma CaptureHasNoTerminator(s: string, pat: string, i: nat)
    requires MatchAt(s, pat, i)
    ensures forall q :: 0 <= q <= |Capture(s, pat, i)| ==> !TerminatorAt(Capture(s, pat, i), q)
  {
    var e := SkipSeparators(s, i + |pat|);
    var p := NextTerminator(s, e).value;
    NextTerminatorSpec(s, e);
    var c := Capture(s, pat, i);
    assert c == s[e..p];
    forall q | 0 <= q <= |c| ensures !TerminatorAt(c, q) {
      if TerminatorAt(c, q) {
        var t := if CiOccursAt(c, q, TERMINATORS[0]) then TERMINATORS[0]
                 else if CiOccursAt(c, q, TERMINATORS[1]) then TERMINATORS[1]
                 else TERMINATORS[2];
        CiOccursInSlice(s, e, p, q, t);
        assert TerminatorAt(s, e + q);
        assert false;
      }
    }
  }

  /** Between the pattern and the captured text there are only separators, at least one. */
  lemma CaptureFollowsSeparators(s: string, pat: string, i: nat)
    requires MatchAt(s, pat, i)
    ensures var e := SkipSeparators(s, i + |pat|);
            e > i + |pat| && Capture(s, pat, i) == s[e..e + |Capture(s, pat, i)|]
            && forall q :: i + |pat| <= q < e ==> IsSeparator(s[q])
  {
    SkipSeparatorsSpec(s, i + |pat|);
    assert SkipSeparators(s, i + |pat|) > i + |pat|;
  }

  /** The body text: " ".join(body.itertext()). */
  function BodyText(body: Node): string {
    Join(" ", Itertext(body))
  }

  /** The outcome of re.search for each body pattern, in the order they are tried. */
  function PatternResults(text: string): (r: seq<Option<string>>)
    ensures |r| == |BODY_PATTERNS|
    ensures forall k :: 0 <= k < |BODY_PATTERNS| ==> r[k] == Search(text, BODY_PATTERNS[k])
  {
    seq(|BODY_PATTERNS|, k requires 0 <= k < |BODY_PATTERNS| => Search(text, BODY_PATTERNS[k]))
  }

  /** Tries results[k..] in order; the stripped group of the first pattern that matched. */
  function FirstPattern(results: seq<Option<string>>, k: nat): Option<string>
    requires k <= |results|
    decreases |results| - k
  {
    if k == |results| then None
    else match results[k]
      case Some(c) => Some(Strip(c))
      case None => FirstPattern(results, k + 1)
  }

  /** Stage 2 on a whole article: the first `body` below the root, searched with each pattern. */
  function BodyFallback(root: Node): Option<string> {
    match Find(root, Tag("body"))
    case None => None
    case Some(body) => FirstPattern(PatternResults(BodyText(body)), 0)
  }

  // ---------------------------------------------------------------------------------------
  // The two stages together

  /** Stage 1 on a whole article: the text of the first section with a methods title. */
  function StageOne(root: Node): Option<string> {
    var secs := Sections(root);
    match FirstMethodsSection(secs, 0)
    case Some(i) => Some(SectionText(secs[i]))
    case None => None
  }

  /** The value _extract_methods returns. */
  function MethodsText(root: Node): Option<string> {
    if StageOne(root).Some? then StageOne(root) else BodyFallback(root)
  }

  /** _extract_methods: stage 1, and stage 2 only when stage 1 found no section. */
  method ExtractMethods(root: Node) returns (r: Option<string>)
    ensures r == MethodsText(root)
  {
    r := SearchSections(root);
    if r.None? {
      r := SearchBody(root);
    }
  }

  /** The loop over the sections; returns from inside the loop at the first matching title. */
  method SearchSections(root: Node) returns (r: Option<string>)
    ensures r == StageOne(root)
  {
    var secs := Sections(root);
    var i := 0;
    while i < |secs|
      invariant 0 <= i <= |secs|
      invariant forall j :: 0 <= j < i ==> !TitleMatches(secs[j])
    {
      var sec := secs[i];
      var title := FindChild(sec, "title");
      if title.Some? {
        var titleText := if NonEmpty(title.value.text) then Lower(title.value.text.value) else "";
        if IsMethodsTitle(titleText) {
          assert TitleMatches(sec);
          var text := CollectSectionText(sec);
          return Some(text);
        }
      }
      i := i + 1;
    }
    return None;
  }

  /** The loop over the body patterns, in order; the first that matches gives the text. */
  method SearchBody(root: Node) returns (r: Option<string>)
    ensures r == BodyFallback(root)
  {
    var body := Find(root, Tag("body"));
    if body.Some? {
      var bodyText := Join(" ", Itertext(body.value));
      var k := 0;
      while k < |BODY_PATTERNS|
        invariant 0 <= k <= |BODY_PATTERNS|
        invariant FirstPattern(PatternResults(bodyText), k) == FirstPattern(PatternResults(bodyText), 0)
      {
        var m := Search(bodyText, BODY_PATTERNS[k]);
        if m.Some? {
          return Some(Strip(m.value));
        }
        k := k + 1;
      }
    }
    return None;
  }

  /** The text-collecting loop of stage 1: `methods_text` gathers the stripped text and tail of
      every element of sec.iter(), and is joined with spaces. */
  method CollectSectionText(sec: Node) returns (text: string)
    ensures text == SectionText(sec)
  {
    var nodes := Iter(sec);
    var methodsText: seq<string> := [];
    var j := 0;
    while j < |nodes|
      invariant 0 <= j <= |nodes|
      invariant methodsText == Pieces(nodes[..j])
    {
      methodsText := AddPieces(methodsText, nodes[j]);
      PiecesSnoc(nodes, j);
      j := j + 1;
    }
    assert nodes[..j] == nodes;
    text := Join(" ", methodsText);
  }

  /** One step of that loop: the stripped text, then the stripped tail, when non-empty. */
  method AddPieces(acc: seq<string>, elem: Node) returns (r: seq<string>)
    ensures r == acc + NodePieces(elem)
  {
    r := acc;
    if NonEmpty(elem.text) {
      r := r + [Strip(elem.text.value)];
    }
    if NonEmpty(elem.tail) {
      r := r + [Strip(elem.tail.value)];
    }
  }

  lemma PiecesSnoc(nodes: seq<Node>, j: nat)
    requires j < |nodes|
    ensures Pieces(nodes[..j + 1]) == Pieces(nodes[..j]) + NodePieces(nodes[j])
  {
    assert nodes[..j + 1] == nodes[..j] + [nodes[j]];
    PiecesAppend(nodes[..j], [nodes[j]]);
    PiecesOfOne(nodes[j]);
  }

  // ---------------------------------------------------------------------------------------
  // Properties

  /** First match wins: the first section in document order with a methods title gives the text,
      whatever follows it in the document. */
  lemma StageOneWins(root: Node, i: nat)
    requires i < |Sections(root)| && TitleMatches(Sections(root)[i])
    requires forall j :: 0 <= j < i ==> !TitleMatches(Sections(root)[j])
    ensures MethodsText(root) == Some(SectionText(Sections(root)[i]))
  {
  }

  /** Later sections are never consulted: two articles whose sections agree up to the first
      matching one give the same text, even if their bodies and later sections differ. */
  lemma LaterSectionsIgnored(root1: Node, root2: Node, i: nat)
    requires i < |Sections(root1)| && i < |Sections(root2)|
    requires Sections(root1)[..i + 1] == Sections(root2)[..i + 1]
    requires TitleMatches(Sections(root1)[i])
    requires forall j :: 0 <= j < i ==> !TitleMatches(Sections(root1)[j])
    ensures MethodsText(root1) == MethodsText(root2)
  {
    var s1, s2 := Sections(root1), Sections(root2);
    assert s1[i] == s1[..i + 1][i] == s2[..i + 1][i] == s2[i];
    forall j | 0 <= j < i ensures !TitleMatches(s2[j]) {
      assert s2[j] == s2[..i + 1][j] == s1[..i + 1][j] == s1[j];
    }
    StageOneWins(root1, i);
    StageOneWins(root2, i);
  }

  /** Stage 2 runs only when no section title matched, and then decides the result alone. */
  lemma StageTwoOnlyWithoutTitledSection(root: Node)
    ensures (forall j :: 0 <= j < |Sections(root)| ==> !TitleMatches(Sections(root)[j]))
            ==> MethodsText(root) == BodyFallback(root)
    ensures (exists j :: 0 <= j < |Sections(root)| && TitleMatches(Sections(root)[j]))
            ==> exists j :: 0 <= j < |Sections(root)| && MethodsText(root) == Some(SectionText(Sections(root)[j]))
  {
  }

  /** The fallback tries "Materials and Methods", then "Methods", then "Experimental": the result
      is the stripped group of the first pattern that matches the body text. */
  lemma FallbackPatternOrder(text: string, k: nat)
    requires k < |BODY_PATTERNS|
    requires forall j :: 0 <= j < k ==> Search(text, BODY_PATTERNS[j]).None?
    requires Search(text, BODY_PATTERNS[k]).Some?
    ensures FirstPattern(PatternResults(text), 0) == Some(Strip(Search(text, BODY_PATTERNS[k]).value))
  {
    FirstPatternSkips(PatternResults(text), 0, k);
  }

  /** Patterns that did not match are passed over. */
  lemma {:induction false} FirstPatternSkips(results: seq<Option<string>>, from: nat, k: nat)
    requires from <= k <= |results|
    requires forall j :: from <= j < k ==> results[j].None?
    ensures FirstPattern(results, from) == FirstPattern(results, k)
    decreases k - from
  {
    if from < k {
      FirstPatternSkips(results, from + 1, k);
    }
  }

  /** Among the results up to a successful one, the first successful one. */
  lemma FirstSuccess(results: seq<Option<string>>, k: nat, from: nat) returns (k0: nat)
    requires from <= k < |results| && results[k].Some?
    requires forall j :: 0 <= j < from ==> results[j].None?
    ensures k0 <= k && results[k0].Some?
    ensures forall j :: 0 <= j < k0 ==> results[j].None?
    decreases k - from
  {
    if results[from].Some? {
      k0 := from;
    } else {
      k0 := FirstSuccess(results, k, from + 1);
    }
  }

  /** None exactly when no section title matches and the body (if any) matches no pattern. */
  lemma NoMethodsIff(root: Node)
    ensures MethodsText(root) == None <==>
      (forall j :: 0 <= j < |Sections(root)| ==> !TitleMatches(Sections(root)[j]))
      && (Find(root, Tag("body")).None? ||
          forall k :: 0 <= k < |BODY_PATTERNS| ==> Search(BodyText(Find(root, Tag("body")).value), BODY_PATTERNS[k]).None?)
  {
    var body := Find(root, Tag("body"));
    if FirstMethodsSection(Sections(root), 0).None? && body.Some? {
      var results := PatternResults(BodyText(body.value));
      if forall k :: 0 <= k < |results| ==> results[k].None? {
        FirstPatternSkips(results, 0, |results|);
      } else {
        var k :| 0 <= k < |results| && results[k].Some?;
        var k0 := FirstSuccess(results, k, 0);
        FirstPatternSkips(results, 0, k0);
      }
    }
  }

  /** The eight title phrases come down to three: a title matches exactly when it contains
      "methods", "methodology" or "experimental". */
  lemma MethodsTitleIff(titleText: string)
    ensures IsMethodsTitle(titleText) <==>
      Contains(titleText, "methods") || Contains(titleText, "methodology") || Contains(titleText, "experimental")
  {
    if IsMethodsTitle(titleText) {
      var k :| 0 <= k < |METHODS_TITLES| && Contains(titleText, METHODS_TITLES[k]);
      PhraseHasKeyword(titleText, k);
    } else {
      assert !Contains(titleText, METHODS_TITLES[0]);
      assert !Contains(titleText, METHODS_TITLES[3]);
      assert !Contains(titleText, METHODS_TITLES[7]);
    }
  }

  /** Each title phrase holds one of the three keywords. */
  lemma PhraseHasKeyword(titleText: string, k: nat)
    requires k < |METHODS_TITLES| && Contains(titleText, METHODS_TITLES[k])
    ensures Contains(titleText, "methods") || Contains(titleText, "methodology") || Contains(titleText, "experimental")
  {
    KeywordPositions();
    if k == 1 {
      ContainsPiece(titleText, METHODS_TITLES[1], "methods", 14);
    } else if k == 2 {
      ContainsPiece(titleText, METHODS_TITLES[2], "experimental", 0);
    } else if k == 4 {
      ContainsPiece(titleText, METHODS_TITLES[4], "experimental", 0);
    } else if k == 5 {
      ContainsPiece(titleText, METHODS_TITLES[5], "methods", 12);
    } else if k == 6 {
      ContainsPiece(titleText, METHODS_TITLES[6], "experimental", 0);
    }
  }

  /** Where the keyword sits in each longer phrase. */
  lemma KeywordPositions()
    ensures OccursAt(METHODS_TITLES[1], "methods", 14)
    ensures OccursAt(METHODS_TITLES[2], "experimental", 0)
    ensures OccursAt(METHODS_TITLES[4], "experimental", 0)
    ensures OccursAt(METHODS_TITLES[5], "methods", 12)
    ensures OccursAt(METHODS_TITLES[6], "experimental", 0)
  {
    OccursAfter("materials and ", "methods");
    OccursFirst("experimental", " procedures");
    OccursFirst("experimental", " methods");
    OccursAfter("materials & ", "methods");
    OccursFirst("experimental", " section");
  }
}
