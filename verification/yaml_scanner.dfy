/**
 The streaming YAML limit scanner of crates/kiteframe-core/src/yaml.rs, and the recursive condition on document
 trees that it decides.

 The parser is outside the model: the scanner is given the parser's events.
 */
module YamlScanner {
  import opened Outcomes

  datatype Limits = Limits(maxNestingDepth: nat, maxCollectionEntries: nat, maxAliases: nat)

  datatype Event =
    | ScalarEvent(value: string)
    | AliasEvent
    | SequenceStart
    | SequenceEnd
    | MappingStart
    | MappingEnd
    | MarkerEvent
    | StreamEnd

  datatype Violation = DuplicateKey | EntriesExceeded | DepthExceeded | AliasKey | AliasesExceeded

  datatype Frame = SequenceFrame | MappingFrame(expectingKey: bool, scalarKeys: set<string>)

  /** What the scanner remembers. */
  datatype Scanner = Scanner(frames: seq<Frame>, collectionEntries: nat, aliases: nat, violation: Option<Violation>)

  const FRESH := Scanner([], 0, 0, None)

  // ---------------------------------------------------------------- one event

  /** Whether a node that starts now counts as a collection entry: a sequence item or a mapping key. */
  predicate AddsEntry(frames: seq<Frame>) {
    frames != [] && (frames[|frames| - 1].SequenceFrame? || frames[|frames| - 1].expectingKey)
  }

  predicate KeyExpected(frames: seq<Frame>) {
    frames != [] && frames[|frames| - 1].MappingFrame? && frames[|frames| - 1].expectingKey
  }

  predicate Repeats(frames: seq<Frame>, scalarKey: Option<string>) {
    KeyExpected(frames) && scalarKey.Some? && scalarKey.value in frames[|frames| - 1].scalarKeys
  }

  /** The frames once a node has started: a mapping alternates between keys and values. */
  function Advance(frames: seq<Frame>, scalarKey: Option<string>): (advanced: seq<Frame>)
    ensures |advanced| == |frames|
  {
    if frames == [] || frames[|frames| - 1].SequenceFrame? then frames
    else
      var top := frames[|frames| - 1];
      var keys := if top.expectingKey && scalarKey.Some? then top.scalarKeys + {scalarKey.value} else top.scalarKeys;
      frames[|frames| - 1 := MappingFrame(!top.expectingKey, keys)]
  }

  function NodeStarts(limits: Limits, s: Scanner, scalarKey: Option<string>): Scanner
    requires s.violation.None?
  {
    var frames := Advance(s.frames, scalarKey);
    if Repeats(s.frames, scalarKey) then s.(frames := frames, violation := Some(DuplicateKey))
    else if AddsEntry(s.frames) then
      var entries := s.collectionEntries + 1;
      s.(frames := frames, collectionEntries := entries,
         violation := if entries > limits.maxCollectionEntries then Some(EntriesExceeded) else None)
    else s.(frames := frames)
  }

  function CollectionStarts(limits: Limits, s: Scanner, frame: Frame): Scanner
    requires s.violation.None?
  {
    var started := NodeStarts(limits, s, None);
    if started.violation.Some? then started
    else
      var frames := started.frames + [frame];
      started.(frames := frames, violation := if |frames| > limits.maxNestingDepth then Some(DepthExceeded) else None)
  }

  function AliasSeen(limits: Limits, s: Scanner): Scanner
    requires s.violation.None?
  {
    if KeyExpected(s.frames) then s.(violation := Some(AliasKey))
    else
      var started := NodeStarts(limits, s, None);
      var aliases := started.aliases + 1;
      started.(aliases := aliases,
               violation := if started.violation.None? && aliases > limits.maxAliases then Some(AliasesExceeded) else started.violation)
  }

  function Handle(limits: Limits, s: Scanner, event: Event): Scanner {
    if s.violation.Some? then s
    else
      match event
      case ScalarEvent(value) => NodeStarts(limits, s, Some(value))
      case AliasEvent => AliasSeen(limits, s)
      case SequenceStart => CollectionStarts(limits, s, SequenceFrame)
      case MappingStart => CollectionStarts(limits, s, MappingFrame(true, {}))
      case SequenceEnd => s.(frames := if s.frames == [] then [] else s.frames[..|s.frames| - 1])
      case MappingEnd => s.(frames := if s.frames == [] then [] else s.frames[..|s.frames| - 1])
      case MarkerEvent => s
      case StreamEnd => s
  }

  function HandleAll(limits: Limits, s: Scanner, events: seq<Event>): Scanner
    decreases |events|
  {
    if events == [] then s else HandleAll(limits, Handle(limits, s, events[0]), events[1..])
  }

  // ---------------------------------------------------------------- the scanner object

  class StrictYamlScanner {
    const limits: Limits
    var frames: seq<Frame>
    var collectionEntries: nat
    var aliases: nat
    var violation: Option<Violation>

    constructor (limits: Limits)
      ensures this.limits == limits && State() == FRESH
    {
      this.limits := limits;
      frames, collectionEntries, aliases, violation := [], 0, 0, None;
    }

    function State(): Scanner
      reads this
    {
      Scanner(frames, collectionEntries, aliases, violation)
    }

    /** The first violation is the one reported. */
    method Reject(reason: Violation)
      modifies this
      ensures State() == old(State()).(violation := if old(violation).None? then Some(reason) else old(violation))
    {
      if violation.None? {
        violation := Some(reason);
      }
    }

    method NodeStarted(scalarKey: Option<string>)
      requires violation.None?
      modifies this
      ensures State() == NodeStarts(limits, old(State()), scalarKey)
    {
      var addedEntry := false;
      var duplicateKey := false;
      if |frames| > 0 {
        var top := frames[|frames| - 1];
        match top
        case SequenceFrame =>
          addedEntry := true;
        case MappingFrame(expectingKey, scalarKeys) =>
          if expectingKey {
            addedEntry := true;
            if scalarKey.Some? {
              duplicateKey := scalarKey.value in scalarKeys;
              scalarKeys := scalarKeys + {scalarKey.value};
            }
          }
          frames := frames[|frames| - 1 := MappingFrame(!expectingKey, scalarKeys)];
      }
      if duplicateKey {
        Reject(DuplicateKey);
        return;
      }
      if addedEntry {
        collectionEntries := collectionEntries + 1;
        if collectionEntries > limits.maxCollectionEntries {
          Reject(EntriesExceeded);
        }
      }
    }

    method CollectionStarted(frame: Frame)
      requires violation.None?
      modifies this
      ensures State() == CollectionStarts(limits, old(State()), frame)
    {
      NodeStarted(None);
      if violation.Some? {
        return;
      }
      frames := frames + [frame];
      if |frames| > limits.maxNestingDepth {
        Reject(DepthExceeded);
      }
    }

    method HandleEvent(event: Event)
      modifies this
      ensures State() == Handle(limits, old(State()), event)
    {
      if violation.Some? {
        return;
      }
      match event
      case ScalarEvent(value) => NodeStarted(Some(value));
      case AliasEvent =>
        if |frames| > 0 && frames[|frames| - 1].MappingFrame? && frames[|frames| - 1].expectingKey {
          Reject(AliasKey);
          return;
        }
        NodeStarted(None);
        aliases := aliases + 1;
        if aliases > limits.maxAliases {
          Reject(AliasesExceeded);
        }
      case SequenceStart => CollectionStarted(SequenceFrame);
      case MappingStart => CollectionStarted(MappingFrame(true, {}));
      case SequenceEnd =>
        if |frames| > 0 {
          frames := frames[..|frames| - 1];
        }
      case MappingEnd =>
        if |frames| > 0 {
          frames := frames[..|frames| - 1];
        }
      case MarkerEvent =>
      case StreamEnd =>
    }

    /** The loop of `scan`: it ends at the first violation, or with the stream. */
    method Scan(events: seq<Event>) returns (r: Option<Violation>)
      requires State() == FRESH
      modifies this
      ensures r == HandleAll(limits, FRESH, events).violation
    {
      var i := 0;
      while i < |events|
        invariant 0 <= i <= |events| && violation.None?
        invariant HandleAll(limits, State(), events[i..]) == HandleAll(limits, FRESH, events)
      {
        var event := events[i];
        assert events[i..][1..] == events[i + 1..];
        HandleEvent(event);
        i := i + 1;
        if violation.Some? {
          Stuck(limits, State(), events[i..]);
          return violation;
        }
      }
      r := None;
    }
  }

  /** A rejected stream stays rejected, for the same reason. */
  lemma {:induction false} Stuck(limits: Limits, s: Scanner, events: seq<Event>)
    requires s.violation.Some?
    ensures HandleAll(limits, s, events) == s
  {
    if events != [] {
      Stuck(limits, s, events[1..]);
    }
  }

  lemma {:induction false} HandleBoth(limits: Limits, s: Scanner, first: seq<Event>, second: seq<Event>)
    ensures HandleAll(limits, s, first + second) == HandleAll(limits, HandleAll(limits, s, first), second)
    decreases |first|
  {
    if first == [] {
      assert first + second == second;
    } else {
      assert (first + second)[1..] == first[1..] + second;
      HandleBoth(limits, Handle(limits, s, first[0]), first[1..], second);
    }
  }

  // ---------------------------------------------------------------- document trees

  datatype Node =
    | Scalar(value: string)
    | Alias
    | Sequence(items: Nodes)
    | Mapping(pairs: Pairs)

  datatype Nodes = NoMore | Item(head: Node, tail: Nodes)

  datatype Pairs = NoPairs | Pair(key: Node, value: Node, rest: Pairs)

  function Events(node: Node): seq<Event> {
    match node
    case Scalar(value) => [ScalarEvent(value)]
    case Alias => [AliasEvent]
    case Sequence(items) => [SequenceStart] + ItemEvents(items) + [SequenceEnd]
    case Mapping(pairs) => [MappingStart] + PairEvents(pairs) + [MappingEnd]
  }

  function ItemEvents(items: Nodes): seq<Event> {
    match items
    case NoMore => []
    case Item(head, tail) => Events(head) + ItemEvents(tail)
  }

  function PairEvents(pairs: Pairs): seq<Event> {
    match pairs
    case NoPairs => []
    case Pair(key, value, rest) => Events(key) + Events(value) + PairEvents(rest)
  }

  function Max(a: nat, b: nat): nat {
    if a >= b then a else b
  }

  /** How many collections a node nests, itself included. */
  function Depth(node: Node): nat {
    match node
    case Scalar(_) => 0
    case Alias => 0
    case Sequence(items) => 1 + ItemsDepth(items)
    case Mapping(pairs) => 1 + PairsDepth(pairs)
  }

  function ItemsDepth(items: Nodes): nat {
    match items
    case NoMore => 0
    case Item(head, tail) => Max(Depth(head), ItemsDepth(tail))
  }

  function PairsDepth(pairs: Pairs): nat {
    match pairs
    case NoPairs => 0
    case Pair(key, value, rest) => Max(Max(Depth(key), Depth(value)), PairsDepth(rest))
  }

  /** All sequence items and mapping keys below a node. */
  function Entries(node: Node): nat {
    match node
    case Scalar(_) => 0
    case Alias => 0
    case Sequence(items) => ItemsEntries(items)
    case Mapping(pairs) => PairsEntries(pairs)
  }

  function ItemsEntries(items: Nodes): nat {
    match items
    case NoMore => 0
    case Item(head, tail) => 1 + Entries(head) + ItemsEntries(tail)
  }

  function PairsEntries(pairs: Pairs): nat {
    match pairs
    case NoPairs => 0
    case Pair(key, value, rest) => 1 + Entries(key) + Entries(value) + PairsEntries(rest)
  }

  function Aliases(node: Node): nat {
    match node
    case Scalar(_) => 0
    case Alias => 1
    case Sequence(items) => ItemsAliases(items)
    case Mapping(pairs) => PairsAliases(pairs)
  }

  function ItemsAliases(items: Nodes): nat {
    match items
    case NoMore => 0
    case Item(head, tail) => Aliases(head) + ItemsAliases(tail)
  }

  function PairsAliases(pairs: Pairs): nat {
    match pairs
    case NoPairs => 0
    case Pair(key, value, rest) => Aliases(key) + Aliases(value) + PairsAliases(rest)
  }

  function ScalarKeys(pairs: Pairs): set<string> {
    match pairs
    case NoPairs => {}
    case Pair(key, _, rest) => (if key.Scalar? then {key.value} else {}) + ScalarKeys(rest)
  }

  /** No mapping anywhere in the node repeats a scalar key or has an alias as a key. */
  predicate KeysOk(node: Node) {
    match node
    case Scalar(_) => true
    case Alias => true
    case Sequence(items) => ItemsKeysOk(items)
    case Mapping(pairs) => PairsKeysOk(pairs)
  }

  predicate ItemsKeysOk(items: Nodes) {
    match items
    case NoMore => true
    case Item(head, tail) => KeysOk(head) && ItemsKeysOk(tail)
  }

  predicate PairsKeysOk(pairs: Pairs) {
    match pairs
    case NoPairs => true
    case Pair(key, value, rest) =>
      && !key.Alias?
      && (key.Scalar? ==> key.value !in ScalarKeys(rest))
      && KeysOk(key) && KeysOk(value) && PairsKeysOk(rest)
  }

  /** Some mapping in the node repeats a scalar key. */
  predicate RepeatsKey(node: Node) {
    match node
    case Scalar(_) => false
    case Alias => false
    case Sequence(items) => ItemsRepeatKey(items)
    case Mapping(pairs) => PairsRepeatKey(pairs)
  }

  predicate ItemsRepeatKey(items: Nodes) {
    match items
    case NoMore => false
    case Item(head, tail) => RepeatsKey(head) || ItemsRepeatKey(tail)
  }

  predicate PairsRepeatKey(pairs: Pairs) {
    match pairs
    case NoPairs => false
    case Pair(key, value, rest) =>
      (key.Scalar? && key.value in ScalarKeys(rest)) || RepeatsKey(key) || RepeatsKey(value) || PairsRepeatKey(rest)
  }

  /** Some mapping in the node has an alias as a key. */
  predicate KeyedByAlias(node: Node) {
    match node
    case Scalar(_) => false
    case Alias => false
    case Sequence(items) => ItemsKeyedByAlias(items)
    case Mapping(pairs) => PairsKeyedByAlias(pairs)
  }

  predicate ItemsKeyedByAlias(items: Nodes) {
    match items
    case NoMore => false
    case Item(head, tail) => KeyedByAlias(head) || ItemsKeyedByAlias(tail)
  }

  predicate PairsKeyedByAlias(pairs: Pairs) {
    match pairs
    case NoPairs => false
    case Pair(key, value, rest) => key.Alias? || KeyedByAlias(key) || KeyedByAlias(value) || PairsKeyedByAlias(rest)
  }

  // ---------------------------------------------------------------- streaming equals recursive

  /** Nothing has been exceeded so far. */
  predicate Within(limits: Limits, s: Scanner) {
    && s.violation.None?
    && |s.frames| <= limits.maxNestingDepth
    && s.collectionEntries <= limits.maxCollectionEntries
    && s.aliases <= limits.maxAliases
  }

  function KeyText(node: Node): Option<string> {
    if node.Scalar? then Some(node.value) else None
  }

  /** The node may start where the scanner is, and what it adds stays within the limits. */
  predicate Fits(limits: Limits, s: Scanner, node: Node) {
    && !Repeats(s.frames, KeyText(node))
    && !(KeyExpected(s.frames) && node.Alias?)
    && s.collectionEntries + (if AddsEntry(s.frames) then 1 else 0) + Entries(node) <= limits.maxCollectionEntries
    && |s.frames| + Depth(node) <= limits.maxNestingDepth
    && s.aliases + Aliases(node) <= limits.maxAliases
    && KeysOk(node)
  }

  /** The scanner after a node it accepted. */
  function Passed(s: Scanner, node: Node): Scanner {
    s.(frames := Advance(s.frames, KeyText(node)),
       collectionEntries := s.collectionEntries + (if AddsEntry(s.frames) then 1 else 0) + Entries(node),
       aliases := s.aliases + Aliases(node))
  }

  predicate ItemsFit(limits: Limits, s: Scanner, items: Nodes) {
    && s.collectionEntries + ItemsEntries(items) <= limits.maxCollectionEntries
    && |s.frames| + ItemsDepth(items) <= limits.maxNestingDepth
    && s.aliases + ItemsAliases(items) <= limits.maxAliases
    && ItemsKeysOk(items)
  }

  predicate PairsFit(limits: Limits, s: Scanner, pairs: Pairs)
    requires KeyExpected(s.frames)
  {
    && s.collectionEntries + PairsEntries(pairs) <= limits.maxCollectionEntries
    && |s.frames| + PairsDepth(pairs) <= limits.maxNestingDepth
    && s.aliases + PairsAliases(pairs) <= limits.maxAliases
    && PairsKeysOk(pairs)
    && s.frames[|s.frames| - 1].scalarKeys !! ScalarKeys(pairs)
  }

  /** The node, started where the scanner is, really has this fault. */
  predicate Explains(limits: Limits, s: Scanner, node: Node, violation: Violation) {
    match violation
    case DuplicateKey => Repeats(s.frames, KeyText(node)) || RepeatsKey(node)
    case EntriesExceeded => s.collectionEntries + (if AddsEntry(s.frames) then 1 else 0) + Entries(node) > limits.maxCollectionEntries
    case DepthExceeded => |s.frames| + Depth(node) > limits.maxNestingDepth
    case AliasKey => (KeyExpected(s.frames) && node.Alias?) || KeyedByAlias(node)
    case AliasesExceeded => s.aliases + Aliases(node) > limits.maxAliases
  }

  predicate ItemsExplain(limits: Limits, s: Scanner, items: Nodes, violation: Violation) {
    match violation
    case DuplicateKey => ItemsRepeatKey(items)
    case EntriesExceeded => s.collectionEntries + ItemsEntries(items) > limits.maxCollectionEntries
    case DepthExceeded => |s.frames| + ItemsDepth(items) > limits.maxNestingDepth
    case AliasKey => ItemsKeyedByAlias(items)
    case AliasesExceeded => s.aliases + ItemsAliases(items) > limits.maxAliases
  }

  predicate PairsExplain(limits: Limits, s: Scanner, pairs: Pairs, violation: Violation)
    requires KeyExpected(s.frames)
  {
    match violation
    case DuplicateKey => PairsRepeatKey(pairs) || s.frames[|s.frames| - 1].scalarKeys * ScalarKeys(pairs) != {}
    case EntriesExceeded => s.collectionEntries + PairsEntries(pairs) > limits.maxCollectionEntries
    case DepthExceeded => |s.frames| + PairsDepth(pairs) > limits.maxNestingDepth
    case AliasKey => PairsKeyedByAlias(pairs)
    case AliasesExceeded => s.aliases + PairsAliases(pairs) > limits.maxAliases
  }

  lemma ScansLeaf(limits: Limits, s: Scanner, node: Node)
    requires Within(limits, s) && (node.Scalar? || node.Alias?)
    ensures
      var r := HandleAll(limits, s, Events(node));
      if Fits(limits, s, node) then r == Passed(s, node) && Within(limits, r)
      else r.violation.Some? && Explains(limits, s, node, r.violation.value)
  {
    HandleOne(limits, s, if node.Scalar? then ScalarEvent(node.value) else AliasEvent);
  }

  lemma {:induction false} ScansSequence(limits: Limits, s: Scanner, node: Node)
    requires Within(limits, s) && node.Sequence?
    ensures
      var r := HandleAll(limits, s, Events(node));
      if Fits(limits, s, node) then r == Passed(s, node) && Within(limits, r)
      else r.violation.Some? && Explains(limits, s, node, r.violation.value)
    decreases node, 0
  {
    var started := CollectionStarts(limits, s, SequenceFrame);
    var events := ItemEvents(node.items);
    Bracketed(limits, s, SequenceStart, events, SequenceEnd);
    if started.violation.Some? {
      Stuck(limits, started, events);
    } else {
      ScansItems(limits, started, node.items);
      hide HandleAll;
      var scanned := HandleAll(limits, started, events);
      if scanned.violation.None? {
        assert scanned.frames[..|scanned.frames| - 1] == Advance(s.frames, None);
      }
    }
  }

  lemma {:induction false} ScansMapping(limits: Limits, s: Scanner, node: Node)
    requires Within(limits, s) && node.Mapping?
    ensures
      var r := HandleAll(limits, s, Events(node));
      if Fits(limits, s, node) then r == Passed(s, node) && Within(limits, r)
      else r.violation.Some? && Explains(limits, s, node, r.violation.value)
    decreases node, 0
  {
    var started := CollectionStarts(limits, s, MappingFrame(true, {}));
    var events := PairEvents(node.pairs);
    Bracketed(limits, s, MappingStart, events, MappingEnd);
    if started.violation.Some? {
      Stuck(limits, started, events);
    } else {
      ScansPairs(limits, started, node.pairs);
      hide HandleAll;
      var scanned := HandleAll(limits, started, events);
      if scanned.violation.None? {
        assert scanned.frames[..|scanned.frames| - 1] == Advance(s.frames, None);
      }
    }
  }

  lemma {:induction false} ScansNode(limits: Limits, s: Scanner, node: Node)
    requires Within(limits, s)
    ensures
      var r := HandleAll(limits, s, Events(node));
      if Fits(limits, s, node) then r == Passed(s, node) && Within(limits, r)
      else r.violation.Some? && Explains(limits, s, node, r.violation.value)
    decreases node, 1
  {
    hide HandleAll, Events, Fits, Passed, Within, Explains;
    match node
    case Scalar(_) => ScansLeaf(limits, s, node);
    case Alias => ScansLeaf(limits, s, node);
    case Sequence(_) => ScansSequence(limits, s, node);
    case Mapping(_) => ScansMapping(limits, s, node);
  }

  lemma HandleOne(limits: Limits, s: Scanner, event: Event)
    ensures HandleAll(limits, s, [event]) == Handle(limits, s, event)
  {
    assert [event][1..] == [];
  }

  lemma Bracketed(limits: Limits, s: Scanner, start: Event, events: seq<Event>, end: Event)
    ensures HandleAll(limits, s, [start] + events + [end])
         == Handle(limits, HandleAll(limits, Handle(limits, s, start), events), end)
  {
    HandleBoth(limits, s, [start] + events, [end]);
    HandleBoth(limits, s, [start], events);
    HandleOne(limits, s, start);
    HandleOne(limits, HandleAll(limits, s, [start] + events), end);
  }

  lemma {:induction false} ScansItems(limits: Limits, s: Scanner, items: Nodes)
    requires Within(limits, s) && s.frames != [] && s.frames[|s.frames| - 1].SequenceFrame?
    ensures
      var r := HandleAll(limits, s, ItemEvents(items));
      if ItemsFit(limits, s, items) then
        r == s.(collectionEntries := s.collectionEntries + ItemsEntries(items), aliases := s.aliases + ItemsAliases(items))
      else r.violation.Some? && ItemsExplain(limits, s, items, r.violation.value)
    decreases items
  {
    match items
    case NoMore =>
    case Item(head, tail) =>
      ScansNode(limits, s, head);
      HandleBoth(limits, s, Events(head), ItemEvents(tail));
      if Fits(limits, s, head) {
        ScansItems(limits, Passed(s, head), tail);
      } else {
        Stuck(limits, HandleAll(limits, s, Events(head)), ItemEvents(tail));
      }
  }

  lemma {:induction false} ScansPairs(limits: Limits, s: Scanner, pairs: Pairs)
    requires Within(limits, s) && KeyExpected(s.frames)
    ensures
      var r := HandleAll(limits, s, PairEvents(pairs));
      if PairsFit(limits, s, pairs) then
        r.violation.None? && |r.frames| == |s.frames| && r.frames[..|s.frames| - 1] == s.frames[..|s.frames| - 1]
        && r.collectionEntries == s.collectionEntries + PairsEntries(pairs) && r.aliases == s.aliases + PairsAliases(pairs)
      else r.violation.Some? && PairsExplain(limits, s, pairs, r.violation.value)
    decreases pairs
  {
    match pairs
    case NoPairs =>
    case Pair(key, value, rest) =>
      hide HandleAll, Events;
      ScansNode(limits, s, key);
      HandleBoth(limits, s, Events(key) + Events(value), PairEvents(rest));
      HandleBoth(limits, s, Events(key), Events(value));
      var keyed := HandleAll(limits, s, Events(key));
      if !Fits(limits, s, key) {
        Stuck(limits, keyed, Events(value));
        Stuck(limits, keyed, PairEvents(rest));
        KeyFails(limits, s, pairs, keyed.violation.value);
      } else {
        ScansNode(limits, keyed, value);
        var paired := HandleAll(limits, keyed, Events(value));
        if !Fits(limits, keyed, value) {
          Stuck(limits, paired, PairEvents(rest));
          ValueFails(limits, s, pairs, paired.violation.value);
        } else {
          ScansPairs(limits, paired, rest);
          RestDecides(limits, s, pairs);
        }
      }
  }

  lemma KeyFails(limits: Limits, s: Scanner, pairs: Pairs, violation: Violation)
    requires pairs.Pair? && KeyExpected(s.frames)
    requires !Fits(limits, s, pairs.key) && Explains(limits, s, pairs.key, violation)
    ensures !PairsFit(limits, s, pairs) && PairsExplain(limits, s, pairs, violation)
  {}

  lemma ValueFails(limits: Limits, s: Scanner, pairs: Pairs, violation: Violation)
    requires pairs.Pair? && KeyExpected(s.frames)
    requires !Fits(limits, Passed(s, pairs.key), pairs.value) && Explains(limits, Passed(s, pairs.key), pairs.value, violation)
    ensures !PairsFit(limits, s, pairs) && PairsExplain(limits, s, pairs, violation)
  {}

  lemma RestDecides(limits: Limits, s: Scanner, pairs: Pairs)
    requires pairs.Pair? && KeyExpected(s.frames) && Within(limits, s)
    requires Fits(limits, s, pairs.key) && Fits(limits, Passed(s, pairs.key), pairs.value)
    ensures
      var paired := Passed(Passed(s, pairs.key), pairs.value);
      && KeyExpected(paired.frames) && |paired.frames| == |s.frames|
      && (PairsFit(limits, s, pairs) <==> PairsFit(limits, paired, pairs.rest))
      && forall violation | PairsExplain(limits, paired, pairs.rest, violation) :: PairsExplain(limits, s, pairs, violation)
  {}

  // ---------------------------------------------------------------- whole streams

  function StreamEvents(documents: seq<Node>): seq<Event> {
    if documents == [] then []
    else StreamEvents(documents[..|documents| - 1]) + ([MarkerEvent] + Events(documents[|documents| - 1]) + [MarkerEvent])
  }

  function TotalEntries(documents: seq<Node>): nat {
    if documents == [] then 0 else TotalEntries(documents[..|documents| - 1]) + Entries(documents[|documents| - 1])
  }

  function TotalAliases(documents: seq<Node>): nat {
    if documents == [] then 0 else TotalAliases(documents[..|documents| - 1]) + Aliases(documents[|documents| - 1])
  }

  /** What the scanner decides about a stream of documents. Entries and aliases are counted across documents. */
  predicate Acceptable(limits: Limits, documents: seq<Node>) {
    && (forall i | 0 <= i < |documents| :: KeysOk(documents[i]) && Depth(documents[i]) <= limits.maxNestingDepth)
    && TotalEntries(documents) <= limits.maxCollectionEntries
    && TotalAliases(documents) <= limits.maxAliases
  }

  lemma ScansDocument(limits: Limits, s: Scanner, document: Node)
    requires Within(limits, s) && s.frames == []
    ensures
      var r := HandleAll(limits, s, [MarkerEvent] + Events(document) + [MarkerEvent]);
      if && KeysOk(document) && Depth(document) <= limits.maxNestingDepth
         && s.collectionEntries + Entries(document) <= limits.maxCollectionEntries
         && s.aliases + Aliases(document) <= limits.maxAliases
      then r == Scanner([], s.collectionEntries + Entries(document), s.aliases + Aliases(document), None)
      else r.violation.Some? && Explains(limits, s, document, r.violation.value)
  {
    hide HandleAll, Events, Depth, Entries, Aliases, KeysOk, RepeatsKey, KeyedByAlias, Explains;
    Bracketed(limits, s, MarkerEvent, Events(document), MarkerEvent);
    ScansNode(limits, s, document);
  }

  /** Some document, or the documents together, really have this fault. */
  predicate StreamExplains(limits: Limits, documents: seq<Node>, violation: Violation) {
    match violation
    case DuplicateKey => exists i :: 0 <= i < |documents| && RepeatsKey(documents[i])
    case EntriesExceeded => TotalEntries(documents) > limits.maxCollectionEntries
    case DepthExceeded => exists i :: 0 <= i < |documents| && Depth(documents[i]) > limits.maxNestingDepth
    case AliasKey => exists i :: 0 <= i < |documents| && KeyedByAlias(documents[i])
    case AliasesExceeded => TotalAliases(documents) > limits.maxAliases
  }

  lemma EarlierExplains(limits: Limits, documents: seq<Node>, violation: Violation)
    requires documents != [] && StreamExplains(limits, documents[..|documents| - 1], violation)
    ensures StreamExplains(limits, documents, violation)
  {
    hide RepeatsKey, KeyedByAlias, Depth, Entries, Aliases;
    assert forall i | 0 <= i < |documents| - 1 :: documents[..|documents| - 1][i] == documents[i];
  }

  lemma LastExplains(limits: Limits, documents: seq<Node>, violation: Violation)
    requires documents != []
    requires
      var earlier := documents[..|documents| - 1];
      Explains(limits, Scanner([], TotalEntries(earlier), TotalAliases(earlier), None), documents[|documents| - 1], violation)
    ensures StreamExplains(limits, documents, violation)
  {
    hide RepeatsKey, KeyedByAlias, Depth, Entries, Aliases;
  }

  lemma {:induction false} ScansDocuments(limits: Limits, documents: seq<Node>)
    ensures
      var r := HandleAll(limits, FRESH, StreamEvents(documents));
      if Acceptable(limits, documents) then r == Scanner([], TotalEntries(documents), TotalAliases(documents), None)
      else r.violation.Some? && StreamExplains(limits, documents, r.violation.value)
    decreases |documents|
  {
    if documents != [] {
      hide HandleAll, KeysOk, Depth, Events, Entries, Aliases;
      var last := |documents| - 1;
      var earlier, document := documents[..last], documents[last];
      var events := [MarkerEvent] + Events(document) + [MarkerEvent];
      ScansDocuments(limits, earlier);
      var s := HandleAll(limits, FRESH, StreamEvents(earlier));
      HandleBoth(limits, FRESH, StreamEvents(earlier), events);
      assert forall i | 0 <= i < last :: documents[i] == earlier[i];
      hide StreamExplains, Explains;
      if s.violation.Some? {
        Stuck(limits, s, events);
        EarlierExplains(limits, documents, s.violation.value);
      } else {
        ScansDocument(limits, s, document);
        var r := HandleAll(limits, s, events);
        if r.violation.Some? {
          LastExplains(limits, documents, r.violation.value);
        }
      }
    }
  }

  /**
   The scanner accepts a stream exactly when no document nests too deeply, the documents together have no more
   entries and aliases than allowed, no mapping repeats a scalar key, and no alias is a key.
   */
  lemma AcceptsExactlyAcceptable(limits: Limits, documents: seq<Node>)
    ensures HandleAll(limits, FRESH, [MarkerEvent] + StreamEvents(documents) + [StreamEnd]).violation.None?
       <==> Acceptable(limits, documents)
  {
    ScansDocuments(limits, documents);
    Bracketed(limits, FRESH, MarkerEvent, StreamEvents(documents), StreamEnd);
  }

  /** A rejected stream really has the fault that is reported. */
  lemma ReportedViolationIsReal(limits: Limits, documents: seq<Node>)
    requires !Acceptable(limits, documents)
    ensures
      var r := HandleAll(limits, FRESH, [MarkerEvent] + StreamEvents(documents) + [StreamEnd]);
      r.violation.Some? && StreamExplains(limits, documents, r.violation.value)
  {
    hide StreamExplains;
    ScansDocuments(limits, documents);
    Bracketed(limits, FRESH, MarkerEvent, StreamEvents(documents), StreamEnd);
  }

  /** Scanning a document stream with the object. */
  method ScanDocuments(limits: Limits, documents: seq<Node>) returns (r: Option<Violation>)
    ensures r.None? <==> Acceptable(limits, documents)
    ensures r.Some? ==> StreamExplains(limits, documents, r.value)
  {
    AcceptsExactlyAcceptable(limits, documents);
    if !Acceptable(limits, documents) {
      ReportedViolationIsReal(limits, documents);
    }
    var scanner := new StrictYamlScanner(limits);
    r := scanner.Scan([MarkerEvent] + StreamEvents(documents) + [StreamEnd]);
  }
}
