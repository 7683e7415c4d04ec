/** Choosing a backend for each attempt of a request: nodes that were tried already are filtered out, in
    place, unless nothing would be left. */
module NodeFilter {
  import opened Model

  datatype Node = Node(address: string, weight: int)

  function Tried(backends: seq<string>): set<string> {
    set b | b in backends
  }

  /** The nodes whose address is not in `tried`, in order. */
  function Untried(nodes: seq<Node>, tried: set<string>): seq<Node> {
    if nodes == [] then []
    else
      var before, n := Untried(nodes[..|nodes| - 1], tried), nodes[|nodes| - 1];
      if n.address in tried then before else before + [n]
  }

  /** What the filter returns. */
  function Candidates(nodes: seq<Node>, backends: seq<string>): seq<Node> {
    var left := Untried(nodes, Tried(backends));
    if backends == [] || left == [] then nodes else left
  }

  lemma UntriedStep(nodes: seq<Node>, i: nat, tried: set<string>)
    requires i < |nodes|
    ensures Untried(nodes[..i + 1], tried) ==
            Untried(nodes[..i], tried) + if nodes[i].address in tried then [] else [nodes[i]]
  {
    assert nodes[..i + 1][..i] == nodes[..i];
  }

  /** The compacting loop: untried nodes move to the front of the same array. */
  method Compact(nodes: array<Node>, tried: set<string>) returns (k: nat)
    modifies nodes
    ensures k == |Untried(old(nodes[..]), tried)| <= nodes.Length
    ensures forall j :: 0 <= j < k ==> nodes[j] == Untried(old(nodes[..]), tried)[j]
    ensures forall j :: k <= j < nodes.Length ==> nodes[j] == old(nodes[j])
  {
    ghost var orig := nodes[..];
    k := 0;
    for i := 0 to nodes.Length
      invariant k <= i && |Untried(orig[..i], tried)| == k
      invariant forall j :: 0 <= j < k ==> nodes[j] == Untried(orig[..i], tried)[j]
      invariant forall j :: k <= j < nodes.Length ==> nodes[j] == orig[j]
    {
      UntriedStep(orig, i, tried);
      if nodes[i].address !in tried {
        nodes[k] := nodes[i];
        k := k + 1;
      }
    }
    assert orig[..nodes.Length] == orig;
  }

  class RequestOptions {
    var backends: seq<string>

    constructor ()
      ensures backends == []
    {
      backends := [];
    }

    /** The filter of NewRequestOptions. The result is the slice nodes[..k]; what lies behind it in the backing
        array is left as it was. */
    method FilterNodes(nodes: array<Node>) returns (k: nat)
      modifies nodes
      ensures k <= nodes.Length && nodes[..k] == Candidates(old(nodes[..]), backends)
      ensures nodes[k..] == old(nodes[..])[k..]
    {
      if |backends| == 0 {
        return nodes.Length;
      }
      k := Compact(nodes, Tried(backends));
      if k == 0 {
        return nodes.Length;
      }
    }

    /** The part of RoundTrip that picks a node: the selector hands the filter a copy of its node list and
        chooses among the result (`choice`); the address is remembered. No node, no trip. */
    method SelectBackend(nodes: seq<Node>, choice: nat) returns (r: Option<Node>)
      modifies this
      ensures nodes == [] ==> r.None? && backends == old(backends)
      ensures nodes != [] ==> r.Some? && r.value in Candidates(nodes, old(backends)) && backends == old(backends) + [r.value.address]
    {
      if |nodes| == 0 {
        return None;
      }
      var copy := new Node[|nodes|](i requires 0 <= i < |nodes| => nodes[i]);
      assert copy[..] == nodes;
      var k := FilterNodes(copy);
      CandidatesNotEmpty(nodes, backends);
      var n := copy[..k][choice % k];
      backends := backends + [n.address];
      return Some(n);
    }
  }

  /** The attempts of one request, for any choices of the selector. */
  method AttemptAll(nodes: seq<Node>, choices: seq<nat>) returns (hits: seq<string>)
    requires nodes != []
    ensures |hits| == |choices| && Attempts(nodes, hits)
  {
    var o := new RequestOptions();
    for i := 0 to |choices|
      invariant |o.backends| == i && Attempts(nodes, o.backends)
    {
      ghost var before := o.backends;
      var r := o.SelectBackend(nodes, choices[i]);
      assert o.backends[..i] == before;
      assert forall j :: 0 <= j < i ==> o.backends[..j] == before[..j];
    }
    return o.backends;
  }

  lemma CandidatesNotEmpty(nodes: seq<Node>, backends: seq<string>)
    requires nodes != []
    ensures Candidates(nodes, backends) != []
  {
  }

  // ---------------------------------------------------------------- attempts of one request

  ghost predicate DistinctAddresses(nodes: seq<Node>) {
    forall i, j :: 0 <= i < j < |nodes| ==> nodes[i].address != nodes[j].address
  }

  /** The addresses that the attempts of one request hit, with a fixed node list and any choices. */
  ghost predicate Attempts(nodes: seq<Node>, hits: seq<string>) {
    forall i :: 0 <= i < |hits| ==> exists n :: n in Candidates(nodes, hits[..i]) && n.address == hits[i]
  }

  lemma {:induction false} UntriedIsUntried(nodes: seq<Node>, tried: set<string>)
    ensures forall n :: n in Untried(nodes, tried) <==> n in nodes && n.address !in tried
  {
    if nodes != [] {
      UntriedIsUntried(nodes[..|nodes| - 1], tried);
      assert nodes == nodes[..|nodes| - 1] + [nodes[|nodes| - 1]];
    }
  }

  lemma {:induction false} ForgetAbsent(nodes: seq<Node>, tried: set<string>, a: string)
    requires forall i :: 0 <= i < |nodes| ==> nodes[i].address != a
    ensures Untried(nodes, tried - {a}) == Untried(nodes, tried)
  {
    if nodes != [] {
      ForgetAbsent(nodes[..|nodes| - 1], tried, a);
    }
  }

  /** Trying k addresses rules out at most k nodes. */
  lemma {:induction false} EnoughLeft(nodes: seq<Node>, tried: set<string>)
    requires DistinctAddresses(nodes)
    ensures |Untried(nodes, tried)| + |tried| >= |nodes|
  {
    if nodes != [] {
      var before, n := nodes[..|nodes| - 1], nodes[|nodes| - 1];
      if n.address in tried {
        ForgetAbsent(before, tried, n.address);
        EnoughLeft(before, tried - {n.address});
      } else {
        EnoughLeft(before, tried);
      }
    }
  }

  lemma {:induction false} TriedSize(backends: seq<string>)
    ensures |Tried(backends)| <= |backends|
  {
    if backends != [] {
      var before, b := backends[..|backends| - 1], backends[|backends| - 1];
      TriedSize(before);
      assert backends == before + [b];
      assert Tried(backends) == Tried(before) + {b};
    }
  }

  /** As long as there are untried nodes, no backend is hit twice: with n nodes, the first min(k, n) of k
      attempts hit pairwise distinct backends. */
  lemma DistinctBackends(nodes: seq<Node>, hits: seq<string>, i: nat, j: nat)
    requires DistinctAddresses(nodes) && Attempts(nodes, hits)
    requires i < j < |hits| && j < |nodes|
    ensures hits[i] != hits[j]
  {
    var before := hits[..j];
    TriedSize(before);
    EnoughLeft(nodes, Tried(before));
    UntriedIsUntried(nodes, Tried(before));
    var n :| n in Candidates(nodes, before) && n.address == hits[j];
    assert before[i] in before;
  }

  /** Once every address was tried, all nodes are candidates again. */
  lemma AllCandidatesAgain(nodes: seq<Node>, backends: seq<string>)
    requires forall n :: n in nodes ==> n.address in backends
    ensures Candidates(nodes, backends) == nodes
  {
    UntriedIsUntried(nodes, Tried(backends));
    if Untried(nodes, Tried(backends)) != [] {
      assert Untried(nodes, Tried(backends))[0] in nodes;
    }
  }
}
