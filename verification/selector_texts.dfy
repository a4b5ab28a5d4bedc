/**
 Which texts are selectors, said on the text itself: `ParsedSelector::parse`
 (crates/kiteframe-provider/src/resource.rs) refuses exactly the texts with a placeholder, with nothing between two
 separators or at an end, or with a wildcard that shares its segment.
 */
module SelectorTexts {
  import opened Outcomes
  import opened Text
  import opened ResourceSelectors

  /** A separator, or either end of the text. */
  predicate IsEdge(value: string, k: int) {
    k < 0 || k >= |value| || value[k] == '/' || value[k] == ':'
  }

  /** A stretch without separators between two edges. */
  predicate IsStretch(value: string, a: nat, b: nat) {
    && a <= b <= |value|
    && IsEdge(value, a - 1) && IsEdge(value, b)
    && forall k | a <= k < b :: !IsEdge(value, k)
  }

  predicate InnerStretch(value: string, text: string, a: nat, b: nat) {
    b < |value| && IsStretch(value, a, b) && value[a..b] == text
  }

  ghost predicate HasInner(value: string, text: string) {
    exists a: nat, b: nat :: InnerStretch(value, text, a, b)
  }

  predicate StretchIs(value: string, text: string, a: nat, b: nat) {
    IsStretch(value, a, b) && value[a..b] == text
  }

  ghost predicate HasStretch(value: string, text: string) {
    exists a: nat, b: nat :: StretchIs(value, text, a, b)
  }

  function Inner(value: string): (segments: seq<string>) {
    Split(value).0[..|Split(value).1|]
  }

  function Last(value: string): (segment: string) {
    Split(value).0[|Split(value).1|]
  }

  lemma {:induction false} LastIsFinalStretch(value: string) returns (a: nat)
    ensures StretchIs(value, Last(value), a, |value|)
    ensures forall other: nat | IsStretch(value, other, |value|) :: other == a
  {
    if value == "" {
      a := 0;
    } else {
      var front, c := value[..|value| - 1], value[|value| - 1];
      if IsSeparator(c) {
        a := |value|;
        assert IsEdge(value, |value| - 1);
      } else {
        a := LastIsFinalStretch(front);
        assert forall k | k < |front| :: IsEdge(front, k) == IsEdge(value, k);
        assert value[a..] == front[a..] + [c];
        forall other: nat | IsStretch(value, other, |value|)
          ensures other == a
        {
          assert other != |value|;
          assert IsStretch(front, other, |front|);
        }
      }
    }
  }

  lemma {:induction false} InnerSegmentsAreStretches(value: string, text: string)
    ensures text in Inner(value) <==> HasInner(value, text)
  {
    if value != "" {
      var front, c := value[..|value| - 1], value[|value| - 1];
      InnerSegmentsAreStretches(front, text);
      InnerGrows(front, c, value, text);
      InnerStretchesGrow(front, c, value, text);
    }
  }

  lemma InnerStretchesGrow(front: string, c: char, value: string, text: string)
    requires value != "" && front == value[..|value| - 1] && c == value[|value| - 1]
    ensures HasInner(value, text) <==> HasInner(front, text) || (IsSeparator(c) && text == Last(front))
  {
    hide Last;
    var last := LastIsFinalStretch(front);
    assert forall k | k < |front| :: IsEdge(front, k) == IsEdge(value, k);
    if a: nat, b: nat :| InnerStretch(front, text, a, b) {
      assert value[a..b] == front[a..b];
      assert InnerStretch(value, text, a, b);
    }
    if IsSeparator(c) && text == Last(front) {
      assert value[last..|front|] == front[last..];
      assert InnerStretch(value, text, last, |front|);
    }
    if a: nat, b: nat :| InnerStretch(value, text, a, b) {
      assert value[a..b] == front[a..b];
      if b < |front| {
        assert InnerStretch(front, text, a, b);
      } else {
        assert IsStretch(front, a, |front|);
      }
    }
  }

  lemma InnerGrows(front: string, c: char, value: string, text: string)
    requires value != "" && front == value[..|value| - 1] && c == value[|value| - 1]
    ensures text in Inner(value) <==> text in Inner(front) || (IsSeparator(c) && text == Last(front))
  {
    var (segments, separators) := Split(front);
    if IsSeparator(c) {
      assert Inner(value) == segments == Inner(front) + [Last(front)];
    } else {
      assert Inner(value) == Inner(front);
    }
  }

  /** The segments of a text are its stretches. */
  lemma SegmentsAreStretches(value: string, text: string)
    ensures text in Split(value).0 <==> HasStretch(value, text)
  {
    InnerSegmentsAreStretches(value, text);
    var last := LastIsFinalStretch(value);
    assert Split(value).0 == Inner(value) + [Last(value)];
    if a: nat, b: nat :| InnerStretch(value, text, a, b) {
      assert StretchIs(value, text, a, b);
    }
    if a: nat, b: nat :| StretchIs(value, text, a, b) {
      if b < |value| {
        assert InnerStretch(value, text, a, b);
      }
    }
  }

  // ---------------------------------------------------------------- what is refused

  /** Nothing stands between two edges. */
  predicate EmptyAt(value: string, k: int) {
    -1 <= k < |value| && IsEdge(value, k) && IsEdge(value, k + 1)
  }

  /** A wildcard has a neighbour in its segment. */
  predicate CrowdedAt(value: string, k: nat) {
    k < |value| && value[k] == '*' && !(IsEdge(value, k - 1) && IsEdge(value, k + 1))
  }

  lemma EmptyExactly(value: string)
    ensures HasStretch(value, "") <==> exists k :: EmptyAt(value, k)
  {
    if a: nat, b: nat :| StretchIs(value, "", a, b) {
      assert EmptyAt(value, a - 1);
    }
    if k :| EmptyAt(value, k) {
      assert StretchIs(value, "", k + 1, k + 1);
    }
  }

  lemma {:induction false} StretchAround(value: string, k: nat) returns (a: nat, b: nat)
    requires k < |value| && !IsEdge(value, k)
    ensures IsStretch(value, a, b) && a <= k < b
  {
    a, b := k, k + 1;
    while !IsEdge(value, a - 1)
      invariant 0 <= a <= k && forall i | a <= i < b :: !IsEdge(value, i)
      decreases a
    {
      a := a - 1;
    }
    while !IsEdge(value, b)
      invariant k < b <= |value| && forall i | a <= i < b :: !IsEdge(value, i)
      decreases |value| - b
    {
      b := b + 1;
    }
  }

  lemma CrowdedExactly(value: string)
    ensures (exists text :: HasStretch(value, text) && PartialWildcardSegment(text)) <==> exists k: nat :: CrowdedAt(value, k)
  {
    if text :| HasStretch(value, text) && PartialWildcardSegment(text) {
      var a: nat, b: nat :| StretchIs(value, text, a, b);
      var i :| 0 <= i < |text| && text[i] == '*';
      assert value[a + i] == '*' && |text| != 1;
      assert CrowdedAt(value, a + i);
    }
    if k: nat :| CrowdedAt(value, k) {
      var a, b := StretchAround(value, k);
      assert value[a..b][k - a] == '*';
      assert b - a > 1;
      assert StretchIs(value, value[a..b], a, b);
      assert PartialWildcardSegment(value[a..b]);
    }
  }

  /** What parses, and what each refusal says: a placeholder first, then an empty segment, then a crowded wildcard. */
  lemma ParsesExactly(value: string)
    ensures Contains(value, "${context.") <==> Parse(value) == Failure(UnresolvedPlaceholder)
    ensures !Contains(value, "${context.") && (exists k :: EmptyAt(value, k)) <==> Parse(value) == Failure(EmptySegment)
    ensures !Contains(value, "${context.") && !(exists k :: EmptyAt(value, k)) && (exists k: nat :: CrowdedAt(value, k))
       <==> Parse(value) == Failure(PartialWildcard)
    ensures !Contains(value, "${context.") && !(exists k :: EmptyAt(value, k)) && !(exists k: nat :: CrowdedAt(value, k)) <==> Parses(value)
  {
    EmptyExactly(value);
    CrowdedExactly(value);
    forall text
      ensures text in Split(value).0 <==> HasStretch(value, text)
    {
      SegmentsAreStretches(value, text);
    }
    hide HasStretch, EmptyAt, CrowdedAt, Contains, Split, PartialWildcardSegment;
    var segments := Split(value).0;
    assert "" in segments <==> exists i :: 0 <= i < |segments| && segments[i] == "";
    if i :| 0 <= i < |segments| && PartialWildcardSegment(segments[i]) {
      assert HasStretch(value, segments[i]);
    }
    if text :| HasStretch(value, text) && PartialWildcardSegment(text) {
      var i :| 0 <= i < |segments| && segments[i] == text;
    }
  }

  /** A concrete selector is one that parses and has no wildcard at all. */
  lemma ConcreteExactly(value: string)
    ensures IsConcrete(value) <==> Parses(value) && '*' !in value
  {
    SegmentsAreStretches(value, WILDCARD);
    if Parses(value) {
      ParsesExactly(value);
      if k :| 0 <= k < |value| && value[k] == '*' {
        assert !CrowdedAt(value, k);
        assert StretchIs(value, "*", k, k + 1);
      }
      if a: nat, b: nat :| StretchIs(value, "*", a, b) {
        assert value[a] == '*';
      }
    }
  }
}
