/**
 The slider mapping of internal/config/mapping.go: lookup, canonical form, and the YAML nodes it is
 written to and read from.
 */
module Mapping {
  import opened Prelude
  import opened Decimal

  datatype Entry = Entry(slider: Int64, targets: seq<string>)

  type SliderMappings = seq<Entry>

  /** The targets of the first entry for a slider. */
  function Get(m: SliderMappings, slider: int): Option<seq<string>> {
    if m == [] then None
    else if m[0].slider == slider then Some(m[0].targets)
    else Get(m[1..], slider)
  }

  lemma {:induction false} GetOfConcat(m: SliderMappings, n: SliderMappings, slider: int)
    ensures Get(m + n, slider) == if Get(m, slider).Some? then Get(m, slider) else Get(n, slider)
  {
    if m == [] {
      assert m + n == n;
    } else {
      assert (m + n)[1..] == m[1..] + n;
      GetOfConcat(m[1..], n, slider);
    }
  }

  lemma {:induction false} GetFinds(m: SliderMappings, slider: int)
    ensures Get(m, slider).Some? <==> exists e <- m :: e.slider == slider
    ensures Get(m, slider).Some? ==> exists e <- m :: e.slider == slider && e.targets == Get(m, slider).value
  {
    if m != [] {
      GetFinds(m[1..], slider);
      assert m == [m[0]] + m[1..];
      if m[0].slider == slider {
        assert m[0] in m;
      }
    }
  }

  // ---------- canonical form ----------

  datatype Problem = NegativeSlider(slider: int) | DuplicateSlider(slider: int)

  /** The targets that are not empty. */
  function NonEmpty(targets: seq<string>): seq<string> {
    if targets == [] then []
    else NonEmpty(targets[..|targets| - 1]) + (if targets[|targets| - 1] == "" then [] else [targets[|targets| - 1]])
  }

  function Sliders(m: SliderMappings): set<int> { set e <- m | e.slider >= 0 :: e.slider as int }

  /** The entries that stay: first of their slider, not negative, with a target left. */
  function Kept(m: SliderMappings): SliderMappings {
    if m == [] then []
    else
      var before, e := m[..|m| - 1], m[|m| - 1];
      Kept(before)
      + (if e.slider < 0 || e.slider in Sliders(before) || NonEmpty(e.targets) == [] then []
         else [Entry(e.slider, NonEmpty(e.targets))])
  }

  function Problems(m: SliderMappings): seq<Problem> {
    if m == [] then []
    else
      var before, e := m[..|m| - 1], m[|m| - 1];
      Problems(before)
      + (if e.slider < 0 then [NegativeSlider(e.slider)]
         else if e.slider in Sliders(before) then [DuplicateSlider(e.slider)]
         else [])
  }

  function InsertEntry(e: Entry, m: SliderMappings): SliderMappings {
    if m == [] || e.slider < m[0].slider then [e] + m else [m[0]] + InsertEntry(e, m[1..])
  }

  function SortedBySlider(m: SliderMappings): SliderMappings {
    if m == [] then [] else InsertEntry(m[|m| - 1], SortedBySlider(m[..|m| - 1]))
  }

  function Canonical(m: SliderMappings): SliderMappings { SortedBySlider(Kept(m)) }

  lemma Grow(before: SliderMappings, e: Entry)
    ensures var m := before + [e];
            && Sliders(m) == (if e.slider >= 0 then Sliders(before) + {e.slider} else Sliders(before))
            && Kept(m) ==
                 Kept(before) + (if e.slider < 0 || e.slider in Sliders(before) || NonEmpty(e.targets) == [] then []
                                 else [Entry(e.slider, NonEmpty(e.targets))])
            && Problems(m) ==
                 Problems(before) + (if e.slider < 0 then [NegativeSlider(e.slider)]
                                     else if e.slider in Sliders(before) then [DuplicateSlider(e.slider)]
                                     else [])
  {
    assert (before + [e])[..|before|] == before;
  }

  /** The loop of normalized, with the maps it keeps; the sort is the library's. */
  method Normalized(m: SliderMappings) returns (mapping: SliderMappings, problems: seq<Problem>)
    ensures mapping == Canonical(m) && problems == Problems(m)
  {
    mapping, problems := [], [];
    var seenSliders: set<int> := {};
    var i := 0;
    assert m[..0] == [] && Kept([]) == [] && Problems([]) == [] && Sliders([]) == {};
    hide Kept, Problems, Sliders, NonEmpty, SortedBySlider;
    while i < |m|
      invariant 0 <= i <= |m|
      invariant mapping == Kept(m[..i]) && problems == Problems(m[..i]) && seenSliders == Sliders(m[..i])
    {
      var entry := m[i];
      ghost var done, next := m[..i], m[..i + 1];
      Grow(done, entry);
      assert next == done + [entry];
      i := i + 1;
      if entry.slider < 0 {
        problems := problems + [NegativeSlider(entry.slider)];
        continue;
      }
      if entry.slider in seenSliders {
        problems := problems + [DuplicateSlider(entry.slider)];
        continue;
      }
      seenSliders := seenSliders + {entry.slider};
      var targets := NonEmpty(entry.targets);
      if |targets| == 0 {
        continue;
      }
      mapping := mapping + [Entry(entry.slider, targets)];
    }
    assert m[..i] == m;
    mapping := SortedBySlider(mapping);
  }

  // ---------- what canonicalization keeps ----------

  ghost predicate Increasing(m: SliderMappings) {
    forall i, j :: 0 <= i < j < |m| ==> m[i].slider < m[j].slider
  }

  ghost predicate DistinctSliders(m: SliderMappings) {
    forall i, j :: 0 <= i < j < |m| ==> m[i].slider != m[j].slider
  }

  /** The form that saves write and consumers may rely on. */
  ghost predicate IsCanonical(m: SliderMappings) {
    Increasing(m) && forall e <- m :: e.slider >= 0 && e.targets != [] && "" !in e.targets
  }

  lemma {:induction false} InsertEntrySorts(e: Entry, m: SliderMappings)
    requires Increasing(m) && forall f <- m :: f.slider != e.slider
    ensures Increasing(InsertEntry(e, m)) && (forall f :: f in InsertEntry(e, m) <==> f == e || f in m)
  {
    if m != [] && e.slider > m[0].slider {
      var rest := InsertEntry(e, m[1..]);
      InsertEntrySorts(e, m[1..]);
      assert m == [m[0]] + m[1..];
      forall i | 0 <= i < |rest| ensures m[0].slider < rest[i].slider {
        assert rest[i] in rest;
      }
    } else {
      assert forall f :: f in [e] + m <==> f == e || f in m;
    }
  }

  lemma {:induction false} SortedBySliderSorts(m: SliderMappings)
    requires DistinctSliders(m)
    ensures Increasing(SortedBySlider(m)) && (forall e :: e in SortedBySlider(m) <==> e in m)
  {
    if m != [] {
      SortedBySliderSorts(m[..|m| - 1]);
      InsertEntrySorts(m[|m| - 1], SortedBySlider(m[..|m| - 1]));
      assert m == m[..|m| - 1] + [m[|m| - 1]];
    }
  }

  lemma {:induction false} SortedBySliderKeeps(m: SliderMappings)
    requires Increasing(m)
    ensures SortedBySlider(m) == m
  {
    if m != [] {
      SortedBySliderKeeps(m[..|m| - 1]);
      InsertLast(m[|m| - 1], m[..|m| - 1]);
      assert m == m[..|m| - 1] + [m[|m| - 1]];
    }
  }

  lemma {:induction false} InsertLast(e: Entry, m: SliderMappings)
    requires forall f <- m :: f.slider < e.slider
    ensures InsertEntry(e, m) == m + [e]
  {
    if m != [] {
      InsertLast(e, m[1..]);
      assert m == [m[0]] + m[1..];
    }
  }

  lemma {:induction false} NonEmptyFilters(targets: seq<string>)
    ensures "" !in NonEmpty(targets)
    ensures "" !in targets ==> NonEmpty(targets) == targets
  {
    if targets != [] {
      NonEmptyFilters(targets[..|targets| - 1]);
      assert targets == targets[..|targets| - 1] + [targets[|targets| - 1]];
    }
  }

  /** What a lookup gives after canonicalization, read off the original. */
  function Sanitized(found: Option<seq<string>>): Option<seq<string>> {
    if found.None? || NonEmpty(found.value) == [] then None else Some(NonEmpty(found.value))
  }

  lemma {:induction false} KeptLooksUp(m: SliderMappings, slider: int)
    requires slider >= 0
    ensures Get(Kept(m), slider) == Sanitized(Get(m, slider))
    ensures slider in Sliders(m) <==> Get(m, slider).Some?
  {
    if m != [] {
      var before, e := m[..|m| - 1], m[|m| - 1];
      KeptLooksUp(before, slider);
      assert m == before + [e];
      GetOfConcat(before, [e], slider);
      GetOfConcat(Kept(before), Kept(m)[|Kept(before)|..], slider);
      assert Kept(m) == Kept(before) + Kept(m)[|Kept(before)|..];
    }
  }

  lemma AppendedStaysDistinct(m: SliderMappings, e: Entry)
    requires DistinctSliders(m) && forall f <- m :: f.slider != e.slider
    ensures DistinctSliders(m + [e])
  {
  }

  lemma {:induction false} KeptIsClean(m: SliderMappings)
    ensures DistinctSliders(Kept(m))
    ensures forall e <- Kept(m) :: e.slider in Sliders(m) && e.targets != [] && "" !in e.targets
  {
    if m != [] {
      var before, e := m[..|m| - 1], m[|m| - 1];
      KeptIsClean(before);
      NonEmptyFilters(e.targets);
      assert m == before + [e];
      Grow(before, e);
      var kept, sliders, targets := Kept(before), Sliders(before), NonEmpty(e.targets);
      hide Kept, Sliders, NonEmpty, Problems;
      if e.slider >= 0 && e.slider !in sliders && targets != [] {
        AppendedStaysDistinct(kept, Entry(e.slider, targets));
      }
    }
  }

  lemma {:induction false} SameEntriesSameLookups(m: SliderMappings, n: SliderMappings, slider: int)
    requires DistinctSliders(m) && DistinctSliders(n) && forall e :: e in m <==> e in n
    ensures Get(m, slider) == Get(n, slider)
  {
    GetFinds(m, slider);
    GetFinds(n, slider);
    if Get(m, slider).Some? {
      var e :| e in m && e.slider == slider && e.targets == Get(m, slider).value;
      var f :| f in n && f.slider == slider && f.targets == Get(n, slider).value;
      assert e in n;
    }
  }

  /** Canonicalization keeps the meaning of every slider that can exist. */
  lemma CanonicalKeepsLookups(m: SliderMappings, slider: int)
    requires slider >= 0
    ensures Get(Canonical(m), slider) == Sanitized(Get(m, slider))
  {
    KeptLooksUp(m, slider);
    KeptIsClean(m);
    SortedBySliderSorts(Kept(m));
    SameEntriesSameLookups(Canonical(m), Kept(m), slider);
  }

  lemma CanonicalIsCanonical(m: SliderMappings)
    ensures IsCanonical(Canonical(m))
  {
    KeptIsClean(m);
    SortedBySliderSorts(Kept(m));
  }

  /** Canonical mappings are left alone and reported on in nothing. */
  lemma CanonicalIsStable(m: SliderMappings)
    requires IsCanonical(m)
    ensures Canonical(m) == m && Problems(m) == []
  {
    KeptKeepsAll(m);
    SortedBySliderKeeps(m);
  }

  lemma {:induction false} KeptKeepsAll(m: SliderMappings)
    requires IsCanonical(m)
    ensures Kept(m) == m && Problems(m) == []
  {
    if m != [] {
      var before, e := m[..|m| - 1], m[|m| - 1];
      assert m == before + [e];
      assert e in m;
      KeptKeepsAll(before);
      NonEmptyFilters(e.targets);
      hide Kept, Problems;
      Grow(before, e);
    }
  }

  // ---------- YAML nodes ----------

  datatype Node =
    | Scalar(tag: string, value: string)
    | Sequence(items: seq<Node>)
    | MappingNode(content: seq<Node>)

  const NULL_TAG := "!!null"

  /** The text of a sequence item; items that are not text are skipped. */
  function ItemTargets(items: seq<Node>): seq<string> {
    if items == [] then []
    else
      var last := items[|items| - 1];
      ItemTargets(items[..|items| - 1]) + (if last.Scalar? && last.tag != NULL_TAG then [last.value] else [])
  }

  function ValueTargets(value: Node): seq<string> {
    match value
    case Scalar(tag, text) => if tag != NULL_TAG && text != "" then [text] else []
    case Sequence(items) => ItemTargets(items)
    case MappingNode(_) => []
  }

  /** The value field of a node that is no scalar is empty, so it is no number. */
  function KeyText(key: Node): string { if key.Scalar? then key.value else "" }

  function PairEntries(content: seq<Node>): SliderMappings {
    if |content| < 2 then []
    else
      var slider := Atoi(KeyText(content[0]));
      (if slider.None? then [] else [Entry(slider.value, ValueTargets(content[1]))]) + PairEntries(content[2..])
  }

  /** UnmarshalYAML: lenient, skipping what makes no sense. */
  function FromNode(node: Node): SliderMappings {
    if node.MappingNode? then PairEntries(node.content) else []
  }

  function StringNode(value: string): Node { Scalar("!!str", value) }

  function ValueNode(targets: seq<string>): Node {
    if |targets| == 1 then StringNode(targets[0])
    else Sequence(seq(|targets|, i requires 0 <= i < |targets| => StringNode(targets[i])))
  }

  function EntryNodes(m: SliderMappings): seq<Node> {
    if m == [] then []
    else if m[0].targets == [] then EntryNodes(m[1..])
    else [Scalar("!!int", Itoa(m[0].slider)), ValueNode(m[0].targets)] + EntryNodes(m[1..])
  }

  /** MarshalYAML. */
  function ToNode(m: SliderMappings): Node { MappingNode(EntryNodes(m)) }

  /** The reading of one value, with the loop over a sequence. */
  method ReadTargets(value: Node) returns (targets: seq<string>)
    ensures targets == ValueTargets(value)
  {
    targets := [];
    match value {
      case Scalar(tag, text) =>
        if tag != NULL_TAG && text != "" {
          targets := targets + [text];
        }
      case Sequence(items) =>
        var k := 0;
        while k < |items|
          invariant 0 <= k <= |items| && targets == ItemTargets(items[..k])
        {
          assert items[..k + 1][..k] == items[..k];
          if items[k].Scalar? && items[k].tag != NULL_TAG {
            targets := targets + [items[k].value];
          }
          k := k + 1;
        }
        assert items[..k] == items;
      case MappingNode(_) =>
    }
  }

  method UnmarshalYAML(node: Node) returns (entries: SliderMappings)
    ensures entries == FromNode(node)
  {
    entries := [];
    if node.MappingNode? {
      hide ValueTargets, Atoi;
      var content := node.content;
      var i := 0;
      assert content[0..] == content;
      while i + 1 < |content|
        invariant 0 <= i <= |content|
        invariant entries + PairEntries(content[i..]) == PairEntries(content)
        decreases |content| - i
      {
        var keyNode, valueNode := content[i], content[i + 1];
        ghost var left := content[i..];
        assert left[0] == keyNode && left[1] == valueNode && left[2..] == content[i + 2..];
        var slider := Atoi(KeyText(keyNode));
        i := i + 2;
        if slider.None? {
          assert PairEntries(left) == PairEntries(content[i..]);
          continue;
        }
        var targets := ReadTargets(valueNode);
        entries := entries + [Entry(slider.value, targets)];
      }
    }
  }

  /** The building of one value, with the loop over several targets. */
  method WriteTargets(targets: seq<string>) returns (value: Node)
    requires targets != []
    ensures value == ValueNode(targets)
  {
    if |targets| == 1 {
      return StringNode(targets[0]);
    }
    var items := [];
    var k := 0;
    while k < |targets|
      invariant 0 <= k <= |targets|
      invariant items == seq(k, j requires 0 <= j < k => StringNode(targets[j]))
    {
      items := items + [StringNode(targets[k])];
      k := k + 1;
    }
    value := Sequence(items);
  }

  method MarshalYAML(m: SliderMappings) returns (node: Node)
    ensures node == ToNode(m)
  {
    hide ValueNode, Itoa;
    var content := [];
    var i := 0;
    while i < |m|
      invariant 0 <= i <= |m|
      invariant content + EntryNodes(m[i..]) == EntryNodes(m)
    {
      var entry := m[i];
      ghost var left := m[i..];
      assert left[0] == entry && left[1..] == m[i + 1..];
      i := i + 1;
      if |entry.targets| == 0 {
        assert EntryNodes(left) == EntryNodes(m[i..]);
        continue;
      }
      var value := WriteTargets(entry.targets);
      content := content + [Scalar("!!int", Itoa(entry.slider)), value];
    }
    node := MappingNode(content);
  }

  /** What is left of one entry after writing and reading it. */
  function Reread(m: SliderMappings): SliderMappings {
    if m == [] then []
    else if m[0].targets == [] then Reread(m[1..])
    else [Entry(m[0].slider, if m[0].targets == [""] then [] else m[0].targets)] + Reread(m[1..])
  }

  lemma {:induction false} ItemTargetsOfStrings(targets: seq<string>)
    ensures ItemTargets(seq(|targets|, i requires 0 <= i < |targets| => StringNode(targets[i]))) == targets
  {
    var items := seq(|targets|, i requires 0 <= i < |targets| => StringNode(targets[i]));
    if targets != [] {
      var before := targets[..|targets| - 1];
      ItemTargetsOfStrings(before);
      assert items[..|items| - 1] == seq(|before|, i requires 0 <= i < |before| => StringNode(before[i]));
    }
  }

  lemma ValueRereads(targets: seq<string>)
    requires targets != []
    ensures ValueTargets(ValueNode(targets)) == if targets == [""] then [] else targets
  {
    ItemTargetsOfStrings(targets);
    if |targets| == 1 {
      assert targets == [targets[0]];
    }
  }

  lemma {:induction false} NodesReread(m: SliderMappings)
    ensures FromNode(ToNode(m)) == Reread(m)
  {
    if m != [] {
      var e, more := m[0], m[1..];
      NodesReread(more);
      AtoiOfItoa(e.slider);
      if e.targets != [] {
        ValueRereads(e.targets);
        hide ValueNode, ValueTargets, Itoa, Atoi;
        var nodes := EntryNodes(m);
        assert nodes[0] == Scalar("!!int", Itoa(e.slider)) && nodes[1] == ValueNode(e.targets)
            && nodes[2..] == EntryNodes(more);
      } else {
        assert EntryNodes(m) == EntryNodes(more);
      }
    }
  }

  /** Writing and reading back is the identity exactly on mappings in which every entry has a target and
      none has the empty target alone; canonical mappings are such. */
  lemma {:induction false} NodesRoundTripExactly(m: SliderMappings)
    ensures FromNode(ToNode(m)) == m <==> forall e <- m :: Writable(e)
    ensures IsCanonical(m) ==> FromNode(ToNode(m)) == m
  {
    NodesReread(m);
    RereadExactly(m);
    if IsCanonical(m) {
      forall e <- m ensures Writable(e) {
        assert e.targets == [""] ==> "" in e.targets;
      }
    }
  }

  predicate Writable(e: Entry) { e.targets != [] && e.targets != [""] }

  lemma {:induction false} RereadExactly(m: SliderMappings)
    ensures |Reread(m)| <= |m|
    ensures Reread(m) == m <==> forall e <- m :: Writable(e)
  {
    if m != [] {
      var e, more := m[0], m[1..];
      RereadExactly(more);
      assert m == [e] + more;
      assert (forall x <- m :: Writable(x)) <==> Writable(e) && forall x <- more :: Writable(x) by {
        assert e in m;
        assert forall x <- more :: x in m;
      }
      if e.targets != [] {
        var again := Reread(m);
        assert again == [again[0]] + Reread(more);
        assert again == m <==> again[0] == e && Reread(more) == more;
        assert again[0].targets == e.targets <==> e.targets != [""];
      }
    }
  }

  // ---------- what nodes say, place by place ----------

  predicate IsText(n: Node) { n.Scalar? && n.tag != "!!null" }

  /** The targets of a sequence node are the values of its items that are text, in order. */
  lemma {:induction false} SequenceTargetsExactly(items: seq<Node>)
    ensures var texts := Filter(items, IsText);
            ValueTargets(Sequence(items)) == seq(|texts|, k requires 0 <= k < |texts| => KeyText(texts[k]))
  {
    if items != [] {
      var init, last := items[..|items| - 1], items[|items| - 1];
      SequenceTargetsExactly(init);
      assert init + [last] == items;
      FilterLast(init, last, IsText);
      assert ValueTargets(Sequence(init)) == ItemTargets(init);
      hide Filter;
    }
  }

  /** A single value is one target, unless it is null or empty; a nested mapping is none. */
  lemma SingleTargetExactly(value: Node)
    requires !value.Sequence?
    ensures ValueTargets(value) == if IsText(value) && value.value != "" then [value.value] else []
  {
  }

  predicate IsFilled(target: string) { target != "" }

  /** Only the empty targets are dropped. */
  lemma {:induction false} NonEmptyExactly(targets: seq<string>)
    ensures NonEmpty(targets) == Filter(targets, IsFilled)
  {
    if targets != [] {
      NonEmptyExactly(targets[..|targets| - 1]);
    }
  }

  /** The key and value nodes of a mapping node; a last key without a value does not count. */
  function Pairs(content: seq<Node>): seq<(Node, Node)> {
    seq(|content| / 2, i requires 0 <= i < |content| / 2 => (content[2 * i], content[2 * i + 1]))
  }

  predicate IsForSlider(pair: (Node, Node)) { pair.0.Scalar? && Atoi(pair.0.value).Some? }

  function EntryOf(pair: (Node, Node)): Entry
    requires IsForSlider(pair)
  {
    Entry(Atoi(pair.0.value).value, ValueTargets(pair.1))
  }

  function EntriesOf(pairs: seq<(Node, Node)>): SliderMappings
    requires forall pair <- pairs :: IsForSlider(pair)
  {
    seq(|pairs|, k requires 0 <= k < |pairs| => assert pairs[k] in pairs; EntryOf(pairs[k]))
  }

  lemma EntriesOfMore(first: (Node, Node), rest: seq<(Node, Node)>)
    requires IsForSlider(first) && forall pair <- rest :: IsForSlider(pair)
    ensures forall pair <- [first] + rest :: IsForSlider(pair)
    ensures EntriesOf([first] + rest) == [EntryOf(first)] + EntriesOf(rest)
  {
    hide IsForSlider, EntryOf;
    var all := [first] + rest;
    assert forall k :: 0 <= k < |rest| ==> all[k + 1] == rest[k];
  }

  /** A mapping node gives one entry per pair whose key is a number, in order. */
  lemma {:induction false} EntriesExactly(content: seq<Node>)
    ensures FromNode(MappingNode(content)) == EntriesOf(Filter(Pairs(content), IsForSlider))
  {
    if |content| >= 2 {
      var first, rest := (content[0], content[1]), content[2..];
      EntriesExactly(rest);
      FirstPair(content);
      FilterFirst(first, Pairs(rest), IsForSlider);
      FirstEntry(content);
      var later := Filter(Pairs(rest), IsForSlider);
      hide Filter, PairEntries, FromNode, Pairs, ValueTargets, EntryOf, IsForSlider, EntriesOf;
      if IsForSlider(first) {
        EntriesOfMore(first, later);
      } else {
        assert [] + later == later && [] + FromNode(MappingNode(rest)) == FromNode(MappingNode(rest));
      }
    }
  }

  lemma FirstPair(content: seq<Node>)
    requires |content| >= 2
    ensures Pairs(content) == [(content[0], content[1])] + Pairs(content[2..])
  {
    var rest := content[2..];
    assert forall i :: 0 <= i < |rest| / 2 ==>
        content[2 * (i + 1)] == rest[2 * i] && content[2 * (i + 1) + 1] == rest[2 * i + 1];
  }

  lemma FirstEntry(content: seq<Node>)
    requires |content| >= 2
    ensures var first := (content[0], content[1]);
            FromNode(MappingNode(content)) ==
              (if IsForSlider(first) then [EntryOf(first)] else []) + FromNode(MappingNode(content[2..]))
  {
    hide ValueTargets;
  }

  predicate HasTargets(e: Entry) { e.targets != [] }

  /** How an entry is written: its index as an integer, its target as a plain string or its several targets as
      a sequence of strings. */
  ghost predicate WrittenAs(e: Entry, key: Node, value: Node) {
    && key == Scalar("!!int", Itoa(e.slider))
    && (|e.targets| == 1 ==> value == Scalar("!!str", e.targets[0]))
    && (|e.targets| > 1 ==>
          && value.Sequence? && |value.items| == |e.targets|
          && forall i :: 0 <= i < |e.targets| ==> value.items[i] == Scalar("!!str", e.targets[i]))
  }

  /** Every entry with targets is written, in order, and nothing else. */
  lemma {:induction false} NodesExactly(m: SliderMappings)
    ensures var filled, node := Filter(m, HasTargets), ToNode(m);
            && node.MappingNode? && |node.content| == 2 * |filled|
            && forall k :: 0 <= k < |filled| ==> WrittenAs(filled[k], node.content[2 * k], node.content[2 * k + 1])
  {
    if m != [] {
      var first, rest := m[0], m[1..];
      hide Filter, EntryNodes, WrittenAs;
      NodesExactly(rest);
      assert m == [first] + rest;
      FilterFirst(first, rest, HasTargets);
      FirstIsWritten(m);
      if HasTargets(first) {
        AllWrittenMore(first, EntryNodes(m), Filter(rest, HasTargets));
      }
    }
  }

  lemma AllWrittenMore(first: Entry, content: seq<Node>, later: seq<Entry>)
    requires |content| == 2 + 2 * |later| && WrittenAs(first, content[0], content[1])
    requires forall k :: 0 <= k < |later| ==> WrittenAs(later[k], content[2..][2 * k], content[2..][2 * k + 1])
    ensures var filled := [first] + later;
            forall k :: 0 <= k < |filled| ==> WrittenAs(filled[k], content[2 * k], content[2 * k + 1])
  {
    hide WrittenAs;
    var filled := [first] + later;
    forall k | 0 <= k < |filled| ensures WrittenAs(filled[k], content[2 * k], content[2 * k + 1]) {
      if k > 0 {
        assert content[2 * k] == content[2..][2 * (k - 1)] && content[2 * k + 1] == content[2..][2 * (k - 1) + 1];
      }
    }
  }

  lemma FirstIsWritten(m: SliderMappings)
    requires m != []
    ensures HasTargets(m[0]) ==>
              && |EntryNodes(m)| >= 2 && WrittenAs(m[0], EntryNodes(m)[0], EntryNodes(m)[1])
              && EntryNodes(m)[2..] == EntryNodes(m[1..])
    ensures !HasTargets(m[0]) ==> EntryNodes(m) == EntryNodes(m[1..])
  {
    hide Itoa;
  }

  // ---------- what is wrong with a mapping ----------

  /** Negative indexes are reported, and indexes that an earlier entry has. */
  lemma ProblemsExactly(m: SliderMappings, slider: int)
    ensures NegativeSlider(slider) in Problems(m) <==> slider < 0 && exists e <- m :: e.slider == slider
    ensures DuplicateSlider(slider) in Problems(m) <==>
              slider >= 0 && exists i, j :: 0 <= i < j < |m| && m[i].slider == slider && m[j].slider == slider
  {
    NegativesExactly(m, slider);
    DuplicatesExactly(m, slider);
  }

  lemma {:induction false} NegativesExactly(m: SliderMappings, slider: int)
    ensures NegativeSlider(slider) in Problems(m) <==> slider < 0 && exists e <- m :: e.slider == slider
  {
    if m != [] {
      NegativesExactly(m[..|m| - 1], slider);
      assert m == m[..|m| - 1] + [m[|m| - 1]];
    }
  }

  /** Two entries of the mapping have this index. */
  ghost predicate Repeats(m: SliderMappings, slider: int) {
    exists i, j :: 0 <= i < j < |m| && m[i].slider == slider && m[j].slider == slider
  }

  lemma RepeatsLast(before: SliderMappings, last: Entry, slider: int)
    ensures Repeats(before + [last], slider) <==>
              Repeats(before, slider) || (last.slider == slider && exists e <- before :: e.slider == slider)
  {
    var m := before + [last];
    if Repeats(before, slider) {
      var i, j :| 0 <= i < j < |before| && before[i].slider == slider && before[j].slider == slider;
      assert m[i].slider == slider && m[j].slider == slider;
    }
    if last.slider == slider && exists e <- before :: e.slider == slider {
      var i :| 0 <= i < |before| && before[i].slider == slider;
      assert m[i].slider == slider && m[|before|].slider == slider;
    }
    if Repeats(m, slider) {
      var i, j :| 0 <= i < j < |m| && m[i].slider == slider && m[j].slider == slider;
      assert m[i] == before[i] && (j < |before| ==> m[j] == before[j]);
    }
  }

  lemma {:induction false} DuplicatesExactly(m: SliderMappings, slider: int)
    ensures DuplicateSlider(slider) in Problems(m) <==> slider >= 0 && Repeats(m, slider)
  {
    if m != [] {
      var before, last := m[..|m| - 1], m[|m| - 1];
      DuplicatesExactly(before, slider);
      assert m == before + [last];
      RepeatsLast(before, last, slider);
      SlidersExactly(before, slider);
      hide Repeats, Sliders;
    }
  }

  lemma SlidersExactly(m: SliderMappings, slider: int)
    ensures slider in Sliders(m) <==> slider >= 0 && exists e <- m :: e.slider == slider
  {
    if slider >= 0 && exists e <- m :: e.slider == slider {
      var e :| e in m && e.slider == slider;
      assert e.slider as int in Sliders(m);
    }
  }

  /** So a mapping is fine exactly if its indexes are distinct and none is negative. */
  lemma {:induction false} NoProblemsExactly(m: SliderMappings)
    ensures Problems(m) == [] <==> DistinctSliders(m) && forall e <- m :: e.slider >= 0
  {
    if m != [] {
      var before, last := m[..|m| - 1], m[|m| - 1];
      NoProblemsExactly(before);
      assert m == before + [last];
      SlidersExactly(before, last.slider);
      hide Sliders;
      if DistinctSliders(m) {
        assert forall i :: 0 <= i < |before| ==> before[i] == m[i] && m[i] in m;
      }
    }
  }
}
