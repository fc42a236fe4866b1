/** Which nodes a new job gets a pod on. */
module NodeFilter {
  import opened Wrappers
  import opened Images

  type Labels = map<string, string>

  /** Selector syntax is not modelled: a parser yields the label sets a selector matches, or an error. */
  type Parser = string -> Option<Labels -> bool>

  datatype Node = Node(name: string, labels: Labels)

  /** The nodes to run on, and how many are left out. */
  datatype Selection = Selection(nodeList: seq<Node>, skipped: nat)

  const DEFAULT_FILTER_LABEL := "eraser.sh/cleanup.filter"

  // ---- one node against the selectors

  datatype Outcome = Matches | NoMatch | BadSelector

  /** Selectors are parsed as they are reached, and the first match ends the search. */
  function Verdict(parse: Parser, selectors: seq<string>, node: Node): Outcome {
    if selectors == [] then NoMatch
    else
      match parse(selectors[0])
      case None => BadSelector
      case Some(matches) => if matches(node.labels) then Matches else Verdict(parse, selectors[1..], node)
  }

  ghost predicate Unmatched(parse: Parser, selectors: seq<string>, node: Node) {
    forall s :: s in selectors ==> parse(s).Some? && !parse(s).value(node.labels)
  }

  ghost predicate FirstHit(parse: Parser, selectors: seq<string>, node: Node, k: nat)
    requires k < |selectors|
  {
    Unmatched(parse, selectors[..k], node) && (parse(selectors[k]).None? || parse(selectors[k]).value(node.labels))
  }

  /** Selectors that do not match are passed over. */
  lemma {:induction false} VerdictGoesOn(parse: Parser, selectors: seq<string>, node: Node, k: nat)
    requires k <= |selectors| && Unmatched(parse, selectors[..k], node)
    ensures Verdict(parse, selectors, node) == Verdict(parse, selectors[k..], node)
  {
    if k == 0 {
      assert selectors[0..] == selectors;
    } else {
      assert selectors[..k] == selectors[..k - 1] + [selectors[k - 1]];
      VerdictGoesOn(parse, selectors, node, k - 1);
      assert selectors[k - 1] in selectors[..k];
      assert selectors[k - 1..][1..] == selectors[k..];
    }
  }

  lemma {:induction false} NoMatchMeaning(parse: Parser, selectors: seq<string>, node: Node)
    ensures Verdict(parse, selectors, node) == NoMatch <==> Unmatched(parse, selectors, node)
  {
    if selectors != [] {
      NoMatchMeaning(parse, selectors[1..], node);
      assert selectors == [selectors[0]] + selectors[1..];
    }
  }

  /** The first selector that fails to parse or matches decides. */
  lemma VerdictMeaning(parse: Parser, selectors: seq<string>, node: Node)
    ensures Verdict(parse, selectors, node) == NoMatch <==> Unmatched(parse, selectors, node)
    ensures forall k :: 0 <= k < |selectors| && FirstHit(parse, selectors, node, k) ==>
              Verdict(parse, selectors, node) == if parse(selectors[k]).None? then BadSelector else Matches
  {
    NoMatchMeaning(parse, selectors, node);
    forall k | 0 <= k < |selectors| && FirstHit(parse, selectors, node, k)
      ensures Verdict(parse, selectors, node) == if parse(selectors[k]).None? then BadSelector else Matches
    {
      VerdictGoesOn(parse, selectors, node, k);
    }
  }

  // ---- a list of nodes against the selectors

  predicate Parses(parse: Parser, selectors: seq<string>, nodes: seq<Node>) {
    forall node :: node in nodes ==> Verdict(parse, selectors, node) != BadSelector
  }

  /** The nodes with that verdict, in order. */
  function Pick(parse: Parser, selectors: seq<string>, nodes: seq<Node>, verdict: Outcome): seq<Node> {
    if nodes == [] then []
    else
      var n := |nodes| - 1;
      var picked := Pick(parse, selectors, nodes[..n], verdict);
      if Verdict(parse, selectors, nodes[n]) == verdict then picked + [nodes[n]] else picked
  }

  lemma PickOneMore(parse: Parser, selectors: seq<string>, nodes: seq<Node>, i: nat, verdict: Outcome)
    requires i < |nodes|
    ensures var picked := Pick(parse, selectors, nodes[..i], verdict);
            Pick(parse, selectors, nodes[..i + 1], verdict) ==
            if Verdict(parse, selectors, nodes[i]) == verdict then picked + [nodes[i]] else picked
  {
    assert nodes[..i + 1][..i] == nodes[..i];
  }

  method SelectIncludedNodes(parse: Parser, nodes: seq<Node>, selectors: seq<string>) returns (r: Option<Selection>)
    ensures r.Some? <==> Parses(parse, selectors, nodes)
    ensures r.Some? ==> r.value.nodeList == Pick(parse, selectors, nodes, Matches)
    ensures r.Some? ==> r.value.skipped == |Pick(parse, selectors, nodes, NoMatch)|
  {
    var skipped := 0;
    var nodeList := [];
    assert Pick(parse, selectors, nodes[..0], Matches) == Pick(parse, selectors, nodes[..0], NoMatch) == [];
    hide Pick;
    label nodes:
    for i := 0 to |nodes|
      invariant Parses(parse, selectors, nodes[..i])
      invariant nodeList == Pick(parse, selectors, nodes[..i], Matches)
      invariant skipped == |Pick(parse, selectors, nodes[..i], NoMatch)|
    {
      skipped := skipped + 1;
      PickOneMore(parse, selectors, nodes, i, Matches);
      PickOneMore(parse, selectors, nodes, i, NoMatch);
      for j := 0 to |selectors|
        invariant Unmatched(parse, selectors[..j], nodes[i])
      {
        VerdictGoesOn(parse, selectors, nodes[i], j);
        var included := parse(selectors[j]);
        if included.None? {
          assert nodes[i] in nodes;
          return None;
        }
        if included.value(nodes[i].labels) {
          nodeList := nodeList + [nodes[i]];
          skipped := skipped - 1;
          continue nodes;
        }
      }
      assert selectors[..|selectors|] == selectors;
      NoMatchMeaning(parse, selectors, nodes[i]);
    }
    assert nodes[..|nodes|] == nodes;
    return Some(Selection(nodeList, skipped));
  }

  method FilterOutSkippedNodes(parse: Parser, nodes: seq<Node>, selectors: seq<string>) returns (r: Option<Selection>)
    ensures r.Some? <==> Parses(parse, selectors, nodes)
    ensures r.Some? ==> r.value.nodeList == Pick(parse, selectors, nodes, NoMatch)
    ensures r.Some? ==> r.value.skipped == |Pick(parse, selectors, nodes, Matches)|
  {
    var skipped := 0;
    var nodeList := [];
    assert Pick(parse, selectors, nodes[..0], Matches) == Pick(parse, selectors, nodes[..0], NoMatch) == [];
    hide Pick;
    label nodes:
    for i := 0 to |nodes|
      invariant Parses(parse, selectors, nodes[..i])
      invariant nodeList == Pick(parse, selectors, nodes[..i], NoMatch)
      invariant skipped == |Pick(parse, selectors, nodes[..i], Matches)|
    {
      PickOneMore(parse, selectors, nodes, i, Matches);
      PickOneMore(parse, selectors, nodes, i, NoMatch);
      for j := 0 to |selectors|
        invariant Unmatched(parse, selectors[..j], nodes[i])
      {
        VerdictGoesOn(parse, selectors, nodes[i], j);
        var skip := parse(selectors[j]);
        if skip.None? {
          assert nodes[i] in nodes;
          return None;
        }
        if skip.value(nodes[i].labels) {
          skipped := skipped + 1;
          continue nodes;
        }
      }
      assert selectors[..|selectors|] == selectors;
      NoMatchMeaning(parse, selectors, nodes[i]);
      nodeList := nodeList + [nodes[i]];
    }
    assert nodes[..|nodes|] == nodes;
    return Some(Selection(nodeList, skipped));
  }

  // ---- the two filters side by side

  /** `left` and `right` deal out `nodes` between them and keep its order. */
  ghost predicate DealtOut(nodes: seq<Node>, left: seq<Node>, right: seq<Node>) {
    if nodes == [] then left == [] && right == []
    else
      var n := |nodes| - 1;
      || (left != [] && left[|left| - 1] == nodes[n] && DealtOut(nodes[..n], left[..|left| - 1], right))
      || (right != [] && right[|right| - 1] == nodes[n] && DealtOut(nodes[..n], left, right[..|right| - 1]))
  }

  lemma {:induction false} PickDealsOut(parse: Parser, selectors: seq<string>, nodes: seq<Node>)
    requires Parses(parse, selectors, nodes)
    ensures DealtOut(nodes, Pick(parse, selectors, nodes, Matches), Pick(parse, selectors, nodes, NoMatch))
    ensures |Pick(parse, selectors, nodes, Matches)| + |Pick(parse, selectors, nodes, NoMatch)| == |nodes|
  {
    if nodes != [] {
      var n := |nodes| - 1;
      var before := nodes[..n];
      assert forall node :: node in before ==> node in nodes;
      PickDealsOut(parse, selectors, before);
      var verdict := Verdict(parse, selectors, nodes[n]);
      assert nodes[n] in nodes && verdict != BadSelector;
      var included, kept := Pick(parse, selectors, before, Matches), Pick(parse, selectors, before, NoMatch);
      if verdict == Matches {
        assert (included + [nodes[n]])[..|included|] == included;
      } else {
        assert (kept + [nodes[n]])[..|kept|] == kept;
      }
    }
  }

  lemma {:induction false} PickMeaning(parse: Parser, selectors: seq<string>, nodes: seq<Node>, verdict: Outcome)
    ensures forall node :: node in Pick(parse, selectors, nodes, verdict) <==>
              node in nodes && Verdict(parse, selectors, node) == verdict
    ensures NoDuplicates(nodes) ==> NoDuplicates(Pick(parse, selectors, nodes, verdict))
  {
    if nodes != [] {
      var n := |nodes| - 1;
      PickMeaning(parse, selectors, nodes[..n], verdict);
      assert nodes == nodes[..n] + [nodes[n]];
    }
  }

  predicate DistinctNames(nodes: seq<Node>) {
    forall i, j :: 0 <= i < j < |nodes| ==> nodes[i].name != nodes[j].name
  }

  lemma {:induction false} PickKeepsDistinct(parse: Parser, selectors: seq<string>, nodes: seq<Node>, verdict: Outcome)
    requires DistinctNames(nodes)
    ensures DistinctNames(Pick(parse, selectors, nodes, verdict))
  {
    if nodes != [] {
      var n := |nodes| - 1;
      var before := Pick(parse, selectors, nodes[..n], verdict);
      PickKeepsDistinct(parse, selectors, nodes[..n], verdict);
      PickMeaning(parse, selectors, nodes[..n], verdict);
      forall i | 0 <= i < |before| ensures before[i].name != nodes[n].name {
        assert before[i] in nodes[..n];
      }
    }
  }

  lemma PickedIff(parse: Parser, selectors: seq<string>, nodes: seq<Node>, wanted: Outcome, node: Node)
    requires Parses(parse, selectors, nodes) && wanted != BadSelector
    ensures node in Pick(parse, selectors, nodes, wanted) <==>
              node in nodes && (Unmatched(parse, selectors, node) <==> wanted == NoMatch)
  {
    PickMeaning(parse, selectors, nodes, wanted);
    VerdictMeaning(parse, selectors, node);
  }

  /** On the same nodes and selectors the two filters fail together; when they succeed, their lists deal the nodes out
      between them, and each count is the length of the other's list. */
  method FiltersAreDual(parse: Parser, nodes: seq<Node>, selectors: seq<string>)
    returns (included: Option<Selection>, kept: Option<Selection>)
    ensures included.Some? <==> kept.Some?
    ensures included.Some? ==> DealtOut(nodes, included.value.nodeList, kept.value.nodeList)
    ensures included.Some? ==> included.value.skipped == |kept.value.nodeList|
    ensures included.Some? ==> kept.value.skipped == |included.value.nodeList|
    ensures included.Some? ==> |included.value.nodeList| + included.value.skipped == |nodes|
  {
    included := SelectIncludedNodes(parse, nodes, selectors);
    kept := FilterOutSkippedNodes(parse, nodes, selectors);
    if included.Some? {
      PickDealsOut(parse, selectors, nodes);
    }
  }

  // ---- the choice a new job makes

  datatype Filter = Filter(kind: string, selectors: seq<string>)

  function WithDefault(selectors: seq<string>): seq<string> {
    if DEFAULT_FILTER_LABEL in selectors then selectors else selectors + [DEFAULT_FILTER_LABEL]
  }

  function Choice(parse: Parser, filter: Filter, nodes: seq<Node>): Option<Selection> {
    var selectors := WithDefault(filter.selectors);
    if filter.kind != "exclude" && filter.kind != "include" then None
    else if !Parses(parse, selectors, nodes) then None
    else
      var included, kept := Pick(parse, selectors, nodes, Matches), Pick(parse, selectors, nodes, NoMatch);
      if filter.kind == "include" then Some(Selection(included, |kept|)) else Some(Selection(kept, |included|))
  }

  method ChooseNodes(parse: Parser, filter: Filter, nodes: seq<Node>) returns (r: Option<Selection>)
    ensures r == Choice(parse, filter, nodes)
  {
    var selectors := filter.selectors;
    if DEFAULT_FILTER_LABEL !in selectors {
      selectors := selectors + [DEFAULT_FILTER_LABEL];
    }
    match filter.kind {
      case "exclude" => r := FilterOutSkippedNodes(parse, nodes, selectors);
      case "include" => r := SelectIncludedNodes(parse, nodes, selectors);
      case _ => r := None;
    }
  }

  ghost predicate SomeMatches(parse: Parser, selectors: seq<string>, node: Node) {
    exists s :: s in selectors && parse(s).Some? && parse(s).value(node.labels)
  }

  /** The search for a matching selector comes to one that does not parse. */
  ghost predicate RunsIntoError(parse: Parser, selectors: seq<string>, node: Node) {
    exists k :: 0 <= k < |selectors| && parse(selectors[k]).None? && Unmatched(parse, selectors[..k], node)
  }

  lemma {:induction false} VerdictsApart(parse: Parser, selectors: seq<string>, node: Node)
    ensures Verdict(parse, selectors, node) == BadSelector <==> RunsIntoError(parse, selectors, node)
    ensures Verdict(parse, selectors, node) == Matches ==> SomeMatches(parse, selectors, node)
    ensures Verdict(parse, selectors, node) == NoMatch ==> !SomeMatches(parse, selectors, node)
  {
    NoMatchMeaning(parse, selectors, node);
    if selectors != [] && parse(selectors[0]).Some? && !parse(selectors[0]).value(node.labels) {
      VerdictsApart(parse, selectors[1..], node);
      FirstPasses(parse, selectors, node);
    } else if selectors != [] {
      assert Unmatched(parse, selectors[..0], node);
      forall k | 0 < k < |selectors| ensures selectors[0] in selectors[..k] {
        assert selectors[..k][0] == selectors[0];
      }
    }
  }

  lemma FirstPasses(parse: Parser, selectors: seq<string>, node: Node)
    requires selectors != [] && parse(selectors[0]).Some? && !parse(selectors[0]).value(node.labels)
    ensures RunsIntoError(parse, selectors, node) <==> RunsIntoError(parse, selectors[1..], node)
  {
    forall k | 0 <= k < |selectors| - 1
      ensures Unmatched(parse, selectors[..k + 1], node) <==> Unmatched(parse, selectors[1..][..k], node)
    {
      assert selectors[..k + 1] == [selectors[0]] + selectors[1..][..k];
    }
    if k :| 0 <= k < |selectors| && parse(selectors[k]).None? && Unmatched(parse, selectors[..k], node) {
      assert parse(selectors[1..][k - 1]).None? && Unmatched(parse, selectors[..k - 1 + 1], node);
    }
    if k :| 0 <= k < |selectors[1..]| && parse(selectors[1..][k]).None? && Unmatched(parse, selectors[1..][..k], node) {
      assert parse(selectors[k + 1]).None? && Unmatched(parse, selectors[..k + 1], node);
    }
  }

  /** The default label is always among the selectors, and nothing else is added. */
  lemma WithDefaultMeaning(selectors: seq<string>)
    ensures forall s :: s in WithDefault(selectors) <==> s in selectors || s == DEFAULT_FILTER_LABEL
    ensures selectors <= WithDefault(selectors)
    ensures |WithDefault(selectors)| == |selectors| + if DEFAULT_FILTER_LABEL in selectors then 0 else 1
  {}

  ghost predicate IsWanted(parse: Parser, filter: Filter, nodes: seq<Node>, node: Node) {
    && node in nodes
    && (SomeMatches(parse, filter.selectors + [DEFAULT_FILTER_LABEL], node) <==> filter.kind == "include")
  }

  /** When there is a choice, and what it is: `include` and `exclude` are the only kinds; no node's search may come to a
      selector that does not parse; and a node is chosen exactly if one of the configured selectors or the default label
      matches it, or for `exclude`, none. */
  lemma ChoiceExactly(parse: Parser, filter: Filter, nodes: seq<Node>)
    ensures Choice(parse, filter, nodes).Some? <==>
              && filter.kind in {"include", "exclude"}
              && forall node :: node in nodes ==> !RunsIntoError(parse, WithDefault(filter.selectors), node)
    ensures Choice(parse, filter, nodes).Some? ==>
              forall node ::
                node in Choice(parse, filter, nodes).value.nodeList <==> IsWanted(parse, filter, nodes, node)
  {
    var selectors := WithDefault(filter.selectors);
    forall node ensures Verdict(parse, selectors, node) == BadSelector <==> RunsIntoError(parse, selectors, node) {
      VerdictsApart(parse, selectors, node);
    }
    if Choice(parse, filter, nodes).Some? {
      var chosen := Choice(parse, filter, nodes).value.nodeList;
      forall node ensures node in chosen <==> IsWanted(parse, filter, nodes, node) {
        ChosenExactly(parse, filter, nodes, node);
      }
    }
  }

  lemma ChosenExactly(parse: Parser, filter: Filter, nodes: seq<Node>, node: Node)
    requires Choice(parse, filter, nodes).Some?
    ensures node in Choice(parse, filter, nodes).value.nodeList <==> IsWanted(parse, filter, nodes, node)
  {
    var selectors := WithDefault(filter.selectors);
    var wanted := if filter.kind == "include" then Matches else NoMatch;
    PickMeaning(parse, selectors, nodes, wanted);
    VerdictsApart(parse, selectors, node);
    WithDefaultMeaning(filter.selectors);
    assert SomeMatches(parse, filter.selectors + [DEFAULT_FILTER_LABEL], node) <==> SomeMatches(parse, selectors, node);
  }

  /** A node is chosen exactly if some selector, the default one included, matches it and none before it fails to
      parse; or, for an exclusion filter, if none matches. Nothing is chosen twice, and every node is accounted for. */
  lemma ChoiceMeaning(parse: Parser, filter: Filter, nodes: seq<Node>)
    ensures Choice(parse, filter, nodes).Some? ==>
              var chosen := Choice(parse, filter, nodes).value;
              && |chosen.nodeList| + chosen.skipped == |nodes|
              && (DistinctNames(nodes) ==> DistinctNames(chosen.nodeList))
              && forall node :: node in chosen.nodeList <==> node in nodes && (
                   Unmatched(parse, WithDefault(filter.selectors), node) <==> filter.kind == "exclude")
  {
    if Choice(parse, filter, nodes).Some? {
      var selectors := WithDefault(filter.selectors);
      var wanted := if filter.kind == "include" then Matches else NoMatch;
      PickDealsOut(parse, selectors, nodes);
      if DistinctNames(nodes) {
        PickKeepsDistinct(parse, selectors, nodes, wanted);
      }
      var picked := Pick(parse, selectors, nodes, wanted);
      forall node
        ensures node in picked <==>
                  node in nodes && (Unmatched(parse, selectors, node) <==> filter.kind == "exclude")
      {
        PickedIff(parse, selectors, nodes, wanted, node);
      }
    }
  }
}
