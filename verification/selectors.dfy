/**
 Resource selectors: `ParsedSelector` and the subset and intersection tests of
 crates/kiteframe-provider/src/resource.rs.

 A selector denotes a set of concrete resources. The results below say that parsing and rendering
 are mutual inverses, that the subset test is exactly inclusion of those sets, and that the
 intersection is exactly their intersection.
 */
module ResourceSelectors {
  import opened Outcomes
  import opened Text

  const WILDCARD := "*"
  const PLACEHOLDER := "${context."

  datatype SelectorError = UnresolvedPlaceholder | EmptySegment | PartialWildcard | WildcardNotConcrete

  datatype ParsedSelector = ParsedSelector(segments: seq<string>, separators: seq<char>)

  predicate IsSeparator(c: char) {
    c == '/' || c == ':'
  }

  predicate SeparatorFree(segment: string) {
    forall i | 0 <= i < |segment| :: !IsSeparator(segment[i])
  }

  predicate PartialWildcardSegment(segment: string) {
    '*' in segment && segment != WILDCARD
  }

  /** A segment the parser can produce. */
  predicate GoodSegment(segment: string) {
    && segment != ""
    && SeparatorFree(segment)
    && !PartialWildcardSegment(segment)
    && !Contains(segment, PLACEHOLDER)
  }

  predicate WellFormed(p: ParsedSelector) {
    && |p.segments| == |p.separators| + 1
    && (forall i | 0 <= i < |p.segments| :: GoodSegment(p.segments[i]))
    && (forall i | 0 <= i < |p.separators| :: IsSeparator(p.separators[i]))
  }

  /** Segments and separators of `value`, empty segments included. */
  function Split(value: string): (r: (seq<string>, seq<char>))
    ensures |r.0| == |r.1| + 1
  {
    if value == "" then ([""], [])
    else
      var (segments, separators) := Split(value[..|value| - 1]);
      var c := value[|value| - 1];
      if IsSeparator(c) then (segments + [""], separators + [c])
      else (segments[..|segments| - 1] + [segments[|segments| - 1] + [c]], separators)
  }

  function Parse(value: string): Result<ParsedSelector, SelectorError> {
    if Contains(value, PLACEHOLDER) then Failure(UnresolvedPlaceholder)
    else
      var (segments, separators) := Split(value);
      if exists i :: 0 <= i < |segments| && segments[i] == "" then Failure(EmptySegment)
      else if exists i :: 0 <= i < |segments| && PartialWildcardSegment(segments[i]) then Failure(PartialWildcard)
      else Success(ParsedSelector(segments, separators))
  }

  function Render(p: ParsedSelector): string
    requires |p.segments| == |p.separators| + 1
    decreases |p.segments|
  {
    var n := |p.separators|;
    if n == 0 then p.segments[0]
    else Render(ParsedSelector(p.segments[..n], p.separators[..n - 1])) + [p.separators[n - 1]] + p.segments[n]
  }

  function Front(p: ParsedSelector): ParsedSelector
    requires WellFormed(p) && |p.separators| > 0
    ensures WellFormed(Front(p))
  {
    ParsedSelector(p.segments[..|p.separators|], p.separators[..|p.separators| - 1])
  }

  predicate Parses(value: string) {
    Parse(value).Success?
  }

  // ---------------------------------------------------------------- parsing and rendering

  /** Segments finished in a prefix of the input stay as they are. */
  lemma {:induction false} SplitKeepsFinishedSegments(value: string, k: nat)
    requires k <= |value|
    ensures
      var (early, _) := Split(value[..k]);
      var (all, _) := Split(value);
      |early| <= |all| && early[..|early| - 1] <= all
    decreases |value| - k
  {
    if k == |value| {
      assert value[..k] == value;
    } else {
      SplitKeepsFinishedSegments(value, k + 1);
      assert value[..k + 1][..k] == value[..k];
      var (early, _) := Split(value[..k]);
      var (next, _) := Split(value[..k + 1]);
      assert early[..|early| - 1] <= next[..|next| - 1];
    }
  }

  method ParseSelector(value: string) returns (r: Result<ParsedSelector, SelectorError>)
    ensures r == Parse(value)
  {
    if Contains(value, PLACEHOLDER) {
      return Failure(UnresolvedPlaceholder);
    }
    var segments: seq<string> := [];
    var separators: seq<char> := [];
    var current := "";
    assert value[..0] == "" && segments + [current] == [""];
    for i := 0 to |value|
      invariant Split(value[..i]) == (segments + [current], separators)
      invariant "" !in segments
    {
      assert value[..i + 1][..i] == value[..i];
      if IsSeparator(value[i]) {
        if current == "" {
          SplitKeepsFinishedSegments(value, i + 1);
          assert Split(value[..i + 1]).0 == segments + [""] + [""];
          assert Split(value).0[|segments|] == "";
          return Failure(EmptySegment);
        }
        segments := segments + [current];
        current := "";
        separators := separators + [value[i]];
      } else {
        assert (segments + [current])[..|segments|] == segments;
        current := current + [value[i]];
      }
    }
    assert value[..|value|] == value;
    if current == "" {
      assert Split(value).0[|segments|] == "";
      return Failure(EmptySegment);
    }
    segments := segments + [current];
    assert forall i | 0 <= i < |segments| :: segments[i] != "";
    if exists i :: 0 <= i < |segments| && PartialWildcardSegment(segments[i]) {
      return Failure(PartialWildcard);
    }
    return Success(ParsedSelector(segments, separators));
  }

  method RenderSelector(p: ParsedSelector) returns (rendered: string)
    requires WellFormed(p)
    ensures rendered == Render(p)
  {
    rendered := p.segments[0];
    for i := 0 to |p.separators|
      invariant rendered == Render(ParsedSelector(p.segments[..i + 1], p.separators[..i]))
    {
      rendered := rendered + [p.separators[i]] + p.segments[i + 1];
      var longer := ParsedSelector(p.segments[..i + 2], p.separators[..i + 1]);
      assert longer.segments[..i + 1] == p.segments[..i + 1];
      assert longer.separators[..i] == p.separators[..i];
    }
    assert p.segments[..|p.separators| + 1] == p.segments;
    assert p.separators[..|p.separators|] == p.separators;
  }

  lemma RenderSnoc(segments: seq<string>, separators: seq<char>, c: char, segment: string)
    requires |segments| == |separators| + 1
    ensures Render(ParsedSelector(segments + [segment], separators + [c]))
         == Render(ParsedSelector(segments, separators)) + [c] + segment
  {
    assert (segments + [segment])[..|segments|] == segments;
    assert (separators + [c])[..|separators|] == separators;
  }

  /** Growing the last segment by one character grows the rendering by it. */
  lemma RenderGrow(segments: seq<string>, separators: seq<char>, c: char)
    requires |segments| == |separators| + 1
    ensures
      var n := |separators|;
      Render(ParsedSelector(segments[..n] + [segments[n] + [c]], separators)) == Render(ParsedSelector(segments, separators)) + [c]
  {
    var n := |separators|;
    assert (segments[..n] + [segments[n] + [c]])[..n] == segments[..n];
  }

  lemma {:induction false} RenderSplit(value: string)
    ensures
      var (segments, separators) := Split(value);
      Render(ParsedSelector(segments, separators)) == value
  {
    if value != "" {
      var front := value[..|value| - 1];
      var c := value[|value| - 1];
      RenderSplit(front);
      var (segments, separators) := Split(front);
      if IsSeparator(c) {
        RenderSnoc(segments, separators, c, "");
      } else {
        RenderGrow(segments, separators, c);
      }
      assert front + [c] == value;
    }
  }

  lemma {:induction false} SplitSeparates(value: string)
    ensures forall c | c in Split(value).1 :: IsSeparator(c)
    ensures forall segment | segment in Split(value).0 :: SeparatorFree(segment)
  {
    if value != "" {
      var front, c := value[..|value| - 1], value[|value| - 1];
      SplitSeparates(front);
      var (early, earlySeparators) := Split(front);
      var (segments, separators) := Split(value);
      if IsSeparator(c) {
        assert separators == earlySeparators + [c];
        assert segments == early + [""];
      } else {
        assert segments == early[..|early| - 1] + [early[|early| - 1] + [c]];
        assert early[|early| - 1] in Split(front).0;
        assert SeparatorFree(early[|early| - 1] + [c]);
      }
    }
  }

  /** Splitting a value extended by separator-free text extends its last segment. */
  lemma {:induction false} SplitExtend(value: string, tail: string)
    requires SeparatorFree(tail)
    ensures
      var (segments, separators) := Split(value);
      Split(value + tail) == (segments[..|separators|] + [segments[|separators|] + tail], separators)
  {
    if tail == "" {
      assert value + tail == value;
      var (segments, separators) := Split(value);
      assert segments[|separators|] + tail == segments[|separators|];
      assert segments[..|separators|] + [segments[|separators|]] == segments;
    } else {
      var k := |tail| - 1;
      SplitExtend(value, tail[..k]);
      assert (value + tail)[..|value + tail| - 1] == value + tail[..k];
      var (segments, separators) := Split(value);
      assert tail[..k] + [tail[k]] == tail;
      assert segments[|separators|] + tail[..k] + [tail[k]] == segments[|separators|] + tail;
    }
  }

  lemma SplitSeam(value: string, c: char)
    requires IsSeparator(c)
    ensures Split(value + [c]) == (Split(value).0 + [""], Split(value).1 + [c])
  {
    assert (value + [c])[..|value + [c]| - 1] == value;
  }

  lemma SplitPlain(segment: string)
    requires SeparatorFree(segment)
    ensures Split(segment) == ([segment], [])
  {
    SplitExtend("", segment);
    assert "" + segment == segment;
    assert Split("").0[..0] + ["" + segment] == [segment];
  }

  /** Splitting past a separator appends one segment. */
  lemma SplitNext(value: string, c: char, segment: string)
    requires IsSeparator(c) && SeparatorFree(segment)
    ensures Split(value + [c] + segment) == (Split(value).0 + [segment], Split(value).1 + [c])
  {
    SplitSeam(value, c);
    SplitExtend(value + [c], segment);
    assert "" + segment == segment;
    assert (Split(value).0 + [""])[..|Split(value).0|] == Split(value).0;
  }

  lemma {:induction false} SplitRender(p: ParsedSelector)
    requires WellFormed(p)
    ensures Split(Render(p)) == (p.segments, p.separators)
    decreases |p.segments|
  {
    var n := |p.separators|;
    if n == 0 {
      SplitPlain(p.segments[0]);
      assert p.segments == [p.segments[0]] && p.separators == [];
    } else {
      var front := Front(p);
      SplitRender(front);
      SplitNext(Render(front), p.separators[n - 1], p.segments[n]);
      assert front.segments + [p.segments[n]] == p.segments;
      assert front.separators + [p.separators[n - 1]] == p.separators;
    }
  }

  lemma {:induction false} PlaceholderLiesInASegment(p: ParsedSelector)
    requires |p.segments| == |p.separators| + 1
    requires forall i | 0 <= i < |p.separators| :: IsSeparator(p.separators[i])
    ensures Contains(Render(p), PLACEHOLDER) <==> exists i :: 0 <= i < |p.segments| && Contains(p.segments[i], PLACEHOLDER)
    decreases |p.segments|
  {
    var n := |p.separators|;
    if n > 0 {
      var front := ParsedSelector(p.segments[..n], p.separators[..n - 1]);
      PlaceholderLiesInASegment(front);
      ContainsAcrossSeam(Render(front), p.separators[n - 1], p.segments[n], PLACEHOLDER);
      forall i | 0 <= i < n ensures front.segments[i] == p.segments[i] {}
    }
  }

  /** The parser accepts `value` as `p` exactly when `p` is well formed and renders to `value`. */
  lemma ParseIsInverseOfRender(value: string, p: ParsedSelector)
    ensures Parse(value) == Success(p) <==> WellFormed(p) && Render(p) == value
  {
    if Parse(value) == Success(p) {
      RenderSplit(value);
      SplitSeparates(value);
      PlaceholderLiesInASegment(p);
    }
    if WellFormed(p) && Render(p) == value {
      SplitRender(p);
      PlaceholderLiesInASegment(p);
    }
  }

  lemma ParsedIsWellFormed(value: string)
    requires Parses(value)
    ensures WellFormed(Parse(value).value) && Render(Parse(value).value) == value
  {
    ParseIsInverseOfRender(value, Parse(value).value);
  }

  // ---------------------------------------------------------------- what a selector denotes

  /** A segment of a concrete resource. */
  predicate Literal(segment: string) {
    GoodSegment(segment) && segment != WILDCARD
  }

  function FillSegments(segments: seq<string>, filling: seq<string>): (r: seq<string>)
    requires |segments| == |filling|
  {
    seq(|segments|, i requires 0 <= i < |segments| => if segments[i] == WILDCARD then filling[i] else segments[i])
  }

  ghost predicate FilledBy(selector: string, resource: string, filling: seq<string>)
    requires Parses(selector)
  {
    var p := Parse(selector).value;
    && |filling| == |p.segments|
    && (forall i | 0 <= i < |filling| :: Literal(filling[i]))
    && resource == Render(ParsedSelector(FillSegments(p.segments, filling), p.separators))
  }

  /** The concrete resources of a selector: its text with every wildcard replaced by some literal segment. */
  ghost predicate Denotes(selector: string, resource: string) {
    Parses(selector) && exists filling :: FilledBy(selector, resource, filling)
  }

  ghost predicate DenotedByAny(selectors: set<string>, resource: string) {
    exists selector | selector in selectors :: Denotes(selector, resource)
  }

  predicate Matches(candidate: ParsedSelector, allowed: ParsedSelector) {
    && candidate.separators == allowed.separators
    && |candidate.segments| == |allowed.segments|
    && forall i | 0 <= i < |allowed.segments| ::
         candidate.segments[i] == allowed.segments[i] || allowed.segments[i] == WILDCARD
  }

  predicate IsConcrete(value: string) {
    Parses(value) && WILDCARD !in Parse(value).value.segments
  }

  predicate IsSubset(candidate: string, allowed: string) {
    Parses(candidate) && Parses(allowed) && Matches(Parse(candidate).value, Parse(allowed).value)
  }

  /** `validate_concrete_resource_selector` accepts exactly the resources that denote only themselves. */
  method ValidateConcrete(value: string) returns (r: Result<(), SelectorError>)
    ensures r.Success? <==> IsConcrete(value)
    ensures r.Success? ==> forall x :: Denotes(value, x) <==> x == value
  {
    var parsed := ParseSelector(value);
    if parsed.Failure? {
      return Failure(parsed.error);
    }
    if WILDCARD in parsed.value.segments {
      return Failure(WildcardNotConcrete);
    }
    forall x ensures Denotes(value, x) <==> x == value {
      ConcreteDenotesItself(value, x);
    }
    return Success(());
  }

  lemma FilledIsConcrete(selector: string, resource: string, filling: seq<string>)
    requires Parses(selector) && FilledBy(selector, resource, filling)
    ensures IsConcrete(resource) && IsSubset(resource, selector)
    ensures Parse(resource).value == ParsedSelector(FillSegments(Parse(selector).value.segments, filling), Parse(selector).value.separators)
  {
    ParsedIsWellFormed(selector);
    var p := Parse(selector).value;
    ParseIsInverseOfRender(resource, ParsedSelector(FillSegments(p.segments, filling), p.separators));
  }

  /** Denotation agrees with the segment-by-segment test on concrete resources. */
  lemma DenotesIsMatching(selector: string, resource: string)
    ensures Denotes(selector, resource) <==> IsConcrete(resource) && IsSubset(resource, selector)
  {
    if Denotes(selector, resource) {
      var filling :| FilledBy(selector, resource, filling);
      FilledIsConcrete(selector, resource, filling);
    }
    if IsConcrete(resource) && IsSubset(resource, selector) {
      ParsedIsWellFormed(resource);
      var filling := Parse(resource).value.segments;
      assert FillSegments(Parse(selector).value.segments, filling) == filling;
      assert FilledBy(selector, resource, filling);
    }
  }

  lemma ConcreteDenotesItself(value: string, x: string)
    requires IsConcrete(value)
    ensures Denotes(value, x) <==> x == value
  {
    DenotesIsMatching(value, x);
    ParsedIsWellFormed(value);
    if IsConcrete(x) && IsSubset(x, value) {
      ParsedIsWellFormed(x);
      assert Parse(x).value.segments == Parse(value).value.segments;
    }
  }

  lemma ShortLiteral(c: char)
    requires c == 'x' || c == 'y'
    ensures Literal([c])
  {
    assert |PLACEHOLDER| > 1;
  }

  /** Some resource of a well-formed selector, with `c` in place of each wildcard. */
  lemma Instance(selector: string, c: char) returns (resource: string)
    requires Parses(selector) && (c == 'x' || c == 'y')
    ensures Denotes(selector, resource) && IsConcrete(resource)
    ensures Parse(resource).value.separators == Parse(selector).value.separators
    ensures |Parse(resource).value.segments| == |Parse(selector).value.segments|
    ensures forall i :: 0 <= i < |Parse(selector).value.segments| ==>
      Parse(resource).value.segments[i] == if Parse(selector).value.segments[i] == WILDCARD then [c] else Parse(selector).value.segments[i]
  {
    ShortLiteral(c);
    var p := Parse(selector).value;
    var filling := seq(|p.segments|, _ => [c]);
    resource := Render(ParsedSelector(FillSegments(p.segments, filling), p.separators));
    assert FilledBy(selector, resource, filling);
    FilledIsConcrete(selector, resource, filling);
  }

  /** The subset test decides inclusion of denotations. */
  lemma SubsetIsInclusion(candidate: string, allowed: string)
    ensures IsSubset(candidate, allowed)
      <==> Parses(candidate) && forall x :: Denotes(candidate, x) ==> Denotes(allowed, x)
  {
    if IsSubset(candidate, allowed) {
      forall x | Denotes(candidate, x) ensures Denotes(allowed, x) {
        DenotesIsMatching(candidate, x);
        DenotesIsMatching(allowed, x);
      }
    }
    if Parses(candidate) && forall x :: Denotes(candidate, x) ==> Denotes(allowed, x) {
      var a := Instance(candidate, 'x');
      var b := Instance(candidate, 'y');
      DenotesIsMatching(allowed, a);
      DenotesIsMatching(allowed, b);
      assert IsSubset(a, allowed) && IsSubset(b, allowed);
    }
  }

  lemma SubsetTransitive(a: string, b: string, c: string)
    requires IsSubset(a, b) && IsSubset(b, c)
    ensures IsSubset(a, c)
  {
    var (p, q) := (Parse(a).value, Parse(b).value);
    forall i | 0 <= i < |p.segments|
      ensures p.segments[i] == Parse(c).value.segments[i] || Parse(c).value.segments[i] == WILDCARD
    {
      assert p.segments[i] == q.segments[i] || q.segments[i] == WILDCARD;
    }
  }

  // ---------------------------------------------------------------- intersection

  function MeetSegment(left: string, right: string): Option<string> {
    if left == right then Some(left)
    else if left == WILDCARD then Some(right)
    else if right == WILDCARD then Some(left)
    else None
  }

  predicate Compatible(left: ParsedSelector, right: ParsedSelector) {
    && left.separators == right.separators
    && |left.segments| == |right.segments|
    && forall i | 0 <= i < |left.segments| :: MeetSegment(left.segments[i], right.segments[i]).Some?
  }

  function Meet(left: ParsedSelector, right: ParsedSelector): ParsedSelector
    requires Compatible(left, right)
  {
    ParsedSelector(
      seq(|left.segments|, i requires 0 <= i < |left.segments| => MeetSegment(left.segments[i], right.segments[i]).value),
      left.separators)
  }

  function Intersect(left: string, right: string): Result<Option<string>, SelectorError> {
    match (Parse(left), Parse(right))
    case (Failure(error), _) => Failure(error)
    case (_, Failure(error)) => Failure(error)
    case (Success(l), Success(r)) =>
      ParsedIsWellFormed(left);
      Success(if Compatible(l, r) then Some(Render(Meet(l, r))) else None)
  }

  method IntersectResourceSelectors(left: string, right: string) returns (r: Result<Option<string>, SelectorError>)
    ensures r == Intersect(left, right)
  {
    var parsedLeft := ParseSelector(left);
    if parsedLeft.Failure? {
      return Failure(parsedLeft.error);
    }
    var parsedRight := ParseSelector(right);
    if parsedRight.Failure? {
      return Failure(parsedRight.error);
    }
    var (l, q) := (parsedLeft.value, parsedRight.value);
    if l.separators != q.separators || |l.segments| != |q.segments| {
      return Success(None);
    }
    ParsedIsWellFormed(left);
    ParsedIsWellFormed(right);
    var intersection: seq<string> := [];
    for i := 0 to |l.segments|
      invariant |intersection| == i
      invariant forall j | 0 <= j < i :: MeetSegment(l.segments[j], q.segments[j]) == Some(intersection[j])
    {
      if l.segments[i] == q.segments[i] {
        intersection := intersection + [l.segments[i]];
      } else if l.segments[i] == WILDCARD {
        intersection := intersection + [q.segments[i]];
      } else if q.segments[i] == WILDCARD {
        intersection := intersection + [l.segments[i]];
      } else {
        assert MeetSegment(l.segments[i], q.segments[i]).None?;
        return Success(None);
      }
    }
    assert intersection == Meet(l, q).segments;
    MeetWellFormed(l, q);
    var rendered := RenderSelector(ParsedSelector(intersection, l.separators));
    return Success(Some(rendered));
  }

  lemma MeetWellFormed(left: ParsedSelector, right: ParsedSelector)
    requires WellFormed(left) && WellFormed(right) && Compatible(left, right)
    ensures WellFormed(Meet(left, right))
  {}

  lemma IntersectParses(left: string, right: string)
    requires Parses(left) && Parses(right)
    ensures Intersect(left, right).Success?
    ensures Intersect(left, right).value.Some? <==> Compatible(Parse(left).value, Parse(right).value)
    ensures Intersect(left, right).value.Some? ==>
      Parse(Intersect(left, right).value.value) == Success(Meet(Parse(left).value, Parse(right).value))
  {
    if Compatible(Parse(left).value, Parse(right).value) {
      ParsedIsWellFormed(left);
      ParsedIsWellFormed(right);
      MeetWellFormed(Parse(left).value, Parse(right).value);
      ParseIsInverseOfRender(Intersect(left, right).value.value, Meet(Parse(left).value, Parse(right).value));
    }
  }

  /** The intersection is the greatest selector below both. */
  lemma IntersectIsGreatestLowerBound(left: string, right: string, below: string)
    requires Parses(left) && Parses(right)
    ensures
      var meet := Intersect(left, right).value;
      IsSubset(below, left) && IsSubset(below, right) <==> meet.Some? && IsSubset(below, meet.value)
  {
    IntersectParses(left, right);
    if IsSubset(below, left) && IsSubset(below, right) {
      var (b, l, q) := (Parse(below).value, Parse(left).value, Parse(right).value);
      forall i | 0 <= i < |l.segments|
        ensures MeetSegment(l.segments[i], q.segments[i]).Some?
        ensures b.segments[i] == MeetSegment(l.segments[i], q.segments[i]).value || MeetSegment(l.segments[i], q.segments[i]).value == WILDCARD
      {}
    }
    var meet := Intersect(left, right).value;
    if meet.Some? && IsSubset(below, meet.value) {
      var (b, l, q) := (Parse(below).value, Parse(left).value, Parse(right).value);
      var m := Meet(l, q);
      forall i | 0 <= i < |l.segments|
        ensures b.segments[i] == l.segments[i] || l.segments[i] == WILDCARD
        ensures b.segments[i] == q.segments[i] || q.segments[i] == WILDCARD
      {
        assert b.segments[i] == m.segments[i] || m.segments[i] == WILDCARD;
      }
    }
  }

  /** A well-formed pair intersects to a well-formed selector denoting exactly the common resources, or to nothing when there are none. */
  lemma IntersectIsExact(left: string, right: string)
    ensures Intersect(left, right).Failure? <==> !Parses(left) || !Parses(right)
    ensures Parses(left) && Parses(right) ==>
      match Intersect(left, right).value
      case Some(meet) => Parses(meet) && (forall x :: Denotes(meet, x) <==> Denotes(left, x) && Denotes(right, x)) && (exists x :: Denotes(meet, x))
      case None => forall x :: !(Denotes(left, x) && Denotes(right, x))
  {
    if Parses(left) && Parses(right) {
      IntersectParses(left, right);
      forall x
        ensures Denotes(left, x) && Denotes(right, x) <==>
          Intersect(left, right).value.Some? && Denotes(Intersect(left, right).value.value, x)
      {
        DenotesIsMatching(left, x);
        DenotesIsMatching(right, x);
        IntersectIsGreatestLowerBound(left, right, x);
        if Intersect(left, right).value.Some? {
          DenotesIsMatching(Intersect(left, right).value.value, x);
        }
      }
      if Intersect(left, right).value.Some? {
        var _ := Instance(Intersect(left, right).value.value, 'x');
      }
    }
  }

  lemma MeetSegmentSwap(a: string, b: string, c: string)
    requires MeetSegment(a, b).Some? && MeetSegment(MeetSegment(a, b).value, c).Some?
    ensures MeetSegment(a, c).Some?
    ensures MeetSegment(MeetSegment(a, c).value, b) == MeetSegment(MeetSegment(a, b).value, c)
  {}

  lemma MeetSwap(p: ParsedSelector, q: ParsedSelector, r: ParsedSelector)
    requires Compatible(p, q) && Compatible(Meet(p, q), r)
    ensures Compatible(p, r) && Compatible(Meet(p, r), q)
    ensures Meet(Meet(p, r), q) == Meet(Meet(p, q), r)
  {
    forall i | 0 <= i < |p.segments|
      ensures MeetSegment(p.segments[i], r.segments[i]).Some?
      ensures MeetSegment(MeetSegment(p.segments[i], r.segments[i]).value, q.segments[i])
           == MeetSegment(Meet(p, q).segments[i], r.segments[i])
    {
      assert Meet(p, q).segments[i] == MeetSegment(p.segments[i], q.segments[i]).value;
      MeetSegmentSwap(p.segments[i], q.segments[i], r.segments[i]);
    }
    assert Meet(Meet(p, r), q).segments == Meet(Meet(p, q), r).segments;
  }

  /** The text of an intersection, if there is one. */
  function MeetText(left: string, right: string): Option<string> {
    if Parses(left) && Parses(right) then
      IntersectParses(left, right);
      Intersect(left, right).value
    else None
  }

  /** Three selectors intersect to the same text whichever of the last two comes first. */
  lemma IntersectSwap(a: string, b: string, c: string)
    requires MeetText(a, b).Some? && MeetText(MeetText(a, b).value, c).Some?
    ensures MeetText(a, c).Some?
    ensures MeetText(MeetText(a, c).value, b) == MeetText(MeetText(a, b).value, c)
  {
    IntersectParses(a, b);
    IntersectParses(MeetText(a, b).value, c);
    MeetSwap(Parse(a).value, Parse(b).value, Parse(c).value);
    IntersectParses(a, c);
    IntersectParses(MeetText(a, c).value, b);
  }

  // ---------------------------------------------------------------- the contract crate's prefix order

  /** `resource_selector_is_subset_of`: equality, or text under a final `:*`. */
  predicate WithinPrefix(requested: string, allowed: string) {
    || requested == allowed
    || (&& |allowed| >= 2 && allowed[|allowed| - 2..] == ":*"
        && allowed[..|allowed| - 1] <= requested)
  }

  predicate WithinSomePrefix(requested: string, allowed: set<string>) {
    exists other | other in allowed :: WithinPrefix(requested, other)
  }

  lemma WithinPrefixTransitive(a: string, b: string, c: string)
    requires WithinPrefix(a, b) && WithinPrefix(b, c)
    ensures WithinPrefix(a, c)
  {
    if a != b && b != c {
      var (n, m) := (|b|, |c|);
      assert c[m - 2] == c[m - 2..][0] == ':';
      assert b[n - 1] == b[n - 2..][1] == '*';
      assert c[..m - 1] <= b && m - 1 <= n;
      assert m - 1 <= n - 1 by {
        assert c[..m - 1][m - 2] == b[m - 2];
      }
      assert c[..m - 1] <= b[..n - 1];
    }
  }

  /** Wildcards occur at most as a final `:*`. */
  predicate FinalWildcardOnly(p: ParsedSelector)
    requires |p.segments| == |p.separators| + 1
  {
    var n := |p.separators|;
    && (forall i | 0 <= i < n :: p.segments[i] != WILDCARD)
    && (p.segments[n] == WILDCARD ==> n > 0 && p.separators[n - 1] == ':')
  }

  /** A segment-wise subset of a selector whose only wildcard is a final `:*` stays within its prefix. */
  lemma SubsetIsWithinPrefix(candidate: string, allowed: string)
    requires IsSubset(candidate, allowed) && WellFormed(Parse(allowed).value) && FinalWildcardOnly(Parse(allowed).value)
    ensures WithinPrefix(candidate, allowed)
  {
    ParsedIsWellFormed(candidate);
    ParsedIsWellFormed(allowed);
    var (p, q) := (Parse(candidate).value, Parse(allowed).value);
    var n := |q.separators|;
    assert p.segments[..n] == q.segments[..n];
    if q.segments[n] == WILDCARD {
      var front := Render(ParsedSelector(q.segments[..n], q.separators[..n - 1])) + [':'];
      assert allowed == front + "*" && candidate == front + p.segments[n];
      assert allowed[..|allowed| - 1] == front && allowed[|allowed| - 2..] == ":*";
    } else {
      assert p.segments == q.segments;
    }
  }

  lemma {:induction false} RenderLength(p: ParsedSelector, q: ParsedSelector)
    requires |p.segments| == |p.separators| + 1 == |q.segments| && |q.separators| == |p.separators|
    requires forall i | 0 <= i < |p.segments| :: |p.segments[i]| == |q.segments[i]|
    ensures |Render(p)| == |Render(q)|
    decreases |p.segments|
  {
    var n := |p.separators|;
    if n > 0 {
      var (front, other) := (ParsedSelector(p.segments[..n], p.separators[..n - 1]), ParsedSelector(q.segments[..n], q.separators[..n - 1]));
      forall i | 0 <= i < n ensures |front.segments[i]| == |other.segments[i]| {
        assert |p.segments[i]| == |q.segments[i]|;
      }
      RenderLength(front, other);
    }
  }

  /** Any other wildcard admits a resource that the prefix order does not. */
  lemma OtherWildcardEscapesPrefix(allowed: string) returns (candidate: string)
    requires Parses(allowed) && WellFormed(Parse(allowed).value) && !FinalWildcardOnly(Parse(allowed).value)
    ensures IsConcrete(candidate) && IsSubset(candidate, allowed) && !WithinPrefix(candidate, allowed)
    ensures |Parse(candidate).value.separators| == 0 ==> candidate == "x"
  {
    candidate := Instance(allowed, 'x');
    DenotesIsMatching(allowed, candidate);
    ParsedIsWellFormed(candidate);
    ParsedIsWellFormed(allowed);
    var (p, q) := (Parse(candidate).value, Parse(allowed).value);
    var at :| 0 <= at < |q.segments| && q.segments[at] == WILDCARD;
    assert p.segments[at] == "x";
    if WithinPrefix(candidate, allowed) {
      assert allowed[|allowed| - 1] == allowed[|allowed| - 2..][1];
      assert allowed[|allowed| - 2] == allowed[|allowed| - 2..][0];
      LastSegment(q);
      forall i | 0 <= i < |p.segments| ensures |p.segments[i]| == |q.segments[i]| {
        assert p.segments[i] == if q.segments[i] == WILDCARD then "x" else q.segments[i];
      }
      PrefixFixesFront(p, q);
    }
  }

  lemma RenderInjective(p: ParsedSelector, q: ParsedSelector)
    requires WellFormed(p) && WellFormed(q) && Render(p) == Render(q)
    ensures p == q
  {
    SplitRender(p);
    SplitRender(q);
  }

  lemma PrefixFixesFront(p: ParsedSelector, q: ParsedSelector)
    requires WellFormed(p) && WellFormed(q) && p.separators == q.separators && |p.separators| > 0
    requires forall i | 0 <= i < |p.segments| :: |p.segments[i]| == |q.segments[i]|
    requires q.segments[|q.separators|] == WILDCARD
    requires Render(q)[..|Render(q)| - 1] <= Render(p)
    ensures forall i | 0 <= i < |p.separators| :: p.segments[i] == q.segments[i]
  {
    RenderLength(Front(q), Front(p));
    var (front, other, k) := (Render(Front(q)), Render(Front(p)), |Render(Front(q))|);
    assert Render(q)[..|Render(q)| - 1][..k] == front;
    assert Render(p)[..k] == other;
    RenderInjective(Front(p), Front(q));
    forall i | 0 <= i < |p.separators| ensures p.segments[i] == q.segments[i] {
      assert Front(p).segments[i] == Front(q).segments[i];
    }
  }

  /** A selector ending in `:*` ends in a wildcard segment after a colon. */
  lemma LastSegment(p: ParsedSelector)
    requires WellFormed(p)
    ensures
      var (text, n) := (Render(p), |p.separators|);
      |text| >= 2 && text[|text| - 1] == '*' && text[|text| - 2] == ':' ==>
        n > 0 && p.segments[n] == WILDCARD && p.separators[n - 1] == ':'
  {
    var (text, n) := (Render(p), |p.separators|);
    var last := p.segments[n];
    if |text| >= 2 && text[|text| - 1] == '*' && text[|text| - 2] == ':' {
      assert last[|last| - 1] == text[|text| - 1];
      assert '*' in last;
      assert last == WILDCARD;
    }
  }

  /** For one allowed selector, the segment order implies the prefix order exactly when its only wildcard is a final `:*`. */
  lemma SegmentOrderImpliesPrefixOrder(allowed: string)
    requires Parses(allowed)
    ensures WellFormed(Parse(allowed).value)
    ensures FinalWildcardOnly(Parse(allowed).value)
      <==> forall candidate :: IsSubset(candidate, allowed) ==> WithinPrefix(candidate, allowed)
  {
    ParsedIsWellFormed(allowed);
    if FinalWildcardOnly(Parse(allowed).value) {
      forall candidate | IsSubset(candidate, allowed) ensures WithinPrefix(candidate, allowed) {
        SubsetIsWithinPrefix(candidate, allowed);
      }
    } else {
      var candidate := OtherWildcardEscapesPrefix(allowed);
    }
  }
}
