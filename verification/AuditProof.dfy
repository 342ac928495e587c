/**
 The redacted audit evidence of one change: summaries of the change's own events and a
 chain of nodes that hides every other event behind its digest. The checker must accept
 exactly the right projections of an accepted organisation chain.
 */
module AuditProof {
  import opened Sequences
  import opened Wrappers
  import opened Text
  import opened AuditChain

  datatype Summary = Summary(id: string, prevHash: string, hash: string, canonicalDigest: string)

  datatype Node = Node(id: string, hash: string, prevHash: string, canonicalDigest: string, target: bool) {
    function Summarised(): Summary {
      Summary(id, prevHash, hash, canonicalDigest)
    }
  }

  datatype Evidence = Evidence(summaries: seq<Summary>, proof: seq<Node>)

  // ----- Building --------------------------------------------------------------

  predicate IsTarget(change: Change, e: Event) {
    e.changeId == change.id || (e.resourceType == "CHANGE" && e.resourceId == change.id)
  }

  function NodeOf(digest: Digest, change: Change, e: Event): Node {
    Node(e.id, e.hash, e.prevHash, DigestOf(digest, e), IsTarget(change, e))
  }

  function Nodes(digest: Digest, change: Change, chain: seq<Event>): (nodes: seq<Node>)
    ensures |nodes| == |chain| && forall i :: 0 <= i < |chain| ==> nodes[i] == NodeOf(digest, change, chain[i])
  {
    seq(|chain|, i requires 0 <= i < |chain| => NodeOf(digest, change, chain[i]))
  }

  /** The summaries of the target nodes, in order. */
  function TargetsOf(nodes: seq<Node>): seq<Summary> {
    if nodes == [] then []
    else
      var n := |nodes| - 1;
      TargetsOf(nodes[..n]) + if nodes[n].target then [nodes[n].Summarised()] else []
  }

  predicate OneOrganization(change: Change, chain: seq<Event>) {
    forall i :: 0 <= i < |chain| ==> chain[i].organization == change.organization
  }

  ghost predicate Buildable(digest: Digest, change: Change, chain: seq<Event>) {
    LogValid(digest, chain) && OneOrganization(change, chain)
  }

  method BuildAuditEvidence(digest: Digest, change: Change, chain: seq<Event>) returns (r: Option<Evidence>)
    ensures r.Some? <==> Buildable(digest, change, chain)
    ensures r.Some? ==> r.value.proof == Nodes(digest, change, chain)
    ensures r.Some? ==> r.value.summaries == TargetsOf(Nodes(digest, change, chain))
  {
    hide LogValid, IsTarget, DigestOf;
    var accepted := Verify(digest, chain);
    if !accepted {
      return None;
    }
    ghost var all := Nodes(digest, change, chain);
    var summaries: seq<Summary>, proof: seq<Node> := [], [];
    for i := 0 to |chain|
      invariant OneOrganization(change, chain[..i])
      invariant proof == all[..i] && summaries == TargetsOf(all[..i])
    {
      var event := chain[i];
      if event.organization != change.organization {
        return None;
      }
      var canonicalDigest := DigestOf(digest, event);
      var target := IsTarget(change, event);
      proof := proof + [Node(event.id, event.hash, event.prevHash, canonicalDigest, target)];
      assert all[..i + 1][..i] == all[..i];
      if target {
        summaries := summaries + [Summary(event.id, event.prevHash, event.hash, canonicalDigest)];
      }
    }
    assert chain[..|chain|] == chain && all[..|chain|] == all;
    r := Some(Evidence(summaries, proof));
  }

  // ----- Checking --------------------------------------------------------------

  predicate DistinctSummaries(audits: seq<Summary>) {
    && (forall k :: 0 <= k < |audits| ==> audits[k].id != "" && audits[k].canonicalDigest != "")
    && (forall j, k :: 0 <= j < k < |audits| ==> audits[j].id != audits[k].id)
  }

  function AnchorBefore(proof: seq<Node>, i: nat): string
    requires i <= |proof|
  {
    if i == 0 then ""
    else if proof[i - 1].hash == "" then proof[i - 1].canonicalDigest
    else proof[i - 1].hash
  }

  predicate NodeChained(proof: seq<Node>, i: nat)
    requires i < |proof|
  {
    var node := proof[i];
    && node.id != "" && node.canonicalDigest != ""
    && if node.hash == "" then (forall j :: 0 <= j < i ==> proof[j].hash == "") && node.prevHash == ""
       else node.prevHash == AnchorBefore(proof, i) && node.hash == node.canonicalDigest
  }

  predicate Mentions(audits: seq<Summary>, id: string) {
    exists k :: 0 <= k < |audits| && audits[k].id == id
  }

  /** A target is summarised exactly as it stands; nothing else is mentioned. */
  predicate NodeMatches(audits: seq<Summary>, node: Node) {
    if node.target then node.Summarised() in audits else !Mentions(audits, node.id)
  }

  predicate Embedded(proof: seq<Node>, id: string) {
    exists i :: 0 <= i < |proof| && proof[i].target && proof[i].id == id
  }

  predicate ProofValid(audits: seq<Summary>, proof: seq<Node>) {
    && DistinctSummaries(audits)
    && AllChained(proof, |proof|)
    && (forall i :: 0 <= i < |proof| ==> NodeMatches(audits, proof[i]))
    && (forall k :: 0 <= k < |audits| ==> Embedded(proof, audits[k].id))
  }

  ghost predicate Indexes(targets: map<string, Summary>, audits: seq<Summary>) {
    && (forall id :: id in targets <==> Mentions(audits, id))
    && (forall k :: 0 <= k < |audits| ==> audits[k].id in targets && targets[audits[k].id] == audits[k])
  }

  method IndexTargets(audits: seq<Summary>) returns (targets: Option<map<string, Summary>>)
    ensures targets.Some? <==> DistinctSummaries(audits)
    ensures targets.Some? ==> Indexes(targets.value, audits)
  {
    hide Indexes;
    var index: map<string, Summary> := map[];
    EmptyIndex();
    assert audits[..0] == [];
    for k := 0 to |audits|
      invariant DistinctSummaries(audits[..k]) && Indexes(index, audits[..k])
    {
      var event := audits[k];
      if event.id == "" || event.canonicalDigest == "" {
        return None;
      }
      if event.id in index {
        Repeated(index, audits, k);
        return None;
      }
      IndexMore(index, audits[..k], event);
      assert audits[..k + 1] == audits[..k] + [event];
      index := index[event.id := event];
    }
    assert audits[..|audits|] == audits;
    targets := Some(index);
  }

  lemma EmptyIndex()
    ensures Indexes(map[], [])
  {
  }

  lemma Repeated(index: map<string, Summary>, audits: seq<Summary>, k: nat)
    requires k < |audits| && Indexes(index, audits[..k]) && audits[k].id in index
    ensures !DistinctSummaries(audits)
  {
    var j :| 0 <= j < k && audits[..k][j].id == audits[k].id;
    assert audits[j].id == audits[k].id;
  }

  lemma IndexMore(index: map<string, Summary>, audits: seq<Summary>, event: Summary)
    requires DistinctSummaries(audits) && Indexes(index, audits)
    requires event.id != "" && event.canonicalDigest != "" && event.id !in index
    ensures DistinctSummaries(audits + [event]) && Indexes(index[event.id := event], audits + [event])
  {
    var longer := audits + [event];
    forall id: string
      ensures Mentions(longer, id) <==> Mentions(audits, id) || id == event.id
    {
      if Mentions(audits, id) {
        var k :| 0 <= k < |audits| && audits[k].id == id;
        assert longer[k].id == id;
      }
      assert longer[|audits|] == event;
    }
    forall j, k | 0 <= j < k < |longer|
      ensures longer[j].id != longer[k].id
    {
      assert longer[j] == audits[j];
    }
  }

  ghost predicate SeenAre(seen: set<string>, proof: seq<Node>) {
    forall id :: id in seen <==> Embedded(proof, id)
  }

  /** The running anchor and flag decide one node without looking back. */
  lemma NodeDecided(proof: seq<Node>, i: nat, anchor: string, hashed: bool)
    requires i < |proof| && anchor == AnchorBefore(proof, i)
    requires hashed <==> exists j :: 0 <= j < i && proof[j].hash != ""
    ensures var node := proof[i];
            NodeChained(proof, i) <==>
              && node.id != "" && node.canonicalDigest != ""
              && if node.hash == "" then !hashed && node.prevHash == ""
                 else node.prevHash == anchor && node.hash == node.canonicalDigest
    ensures AnchorBefore(proof, i + 1) == if proof[i].hash == "" then proof[i].canonicalDigest else proof[i].hash
  {
  }

  method VerifyAuditProof(audits: seq<Summary>, proof: seq<Node>) returns (ok: bool)
    ensures ok <==> ProofValid(audits, proof)
  {
    hide DistinctSummaries, Embedded, Indexes, Mentions, NodeChained, NodeMatches, AnchorBefore, SeenAre;
    var index := IndexTargets(audits);
    if index.None? {
      return false;
    }
    var targets := index.value;
    var seenTarget: set<string> := {};
    var previousAnchor, hashed := "", false;
    NothingSeen(proof);
    assert proof[..0] == [];
    for i := 0 to |proof|
      invariant previousAnchor == AnchorBefore(proof, i)
      invariant hashed <==> exists j :: 0 <= j < i && proof[j].hash != ""
      invariant forall j :: 0 <= j < i ==> NodeChained(proof, j)
      invariant forall j :: 0 <= j < i ==> NodeMatches(audits, proof[j])
      invariant SeenAre(seenTarget, proof[..i]) && seenTarget <= targets.Keys
    {
      var node := proof[i];
      FindTarget(targets, audits, node);
      NodeDecided(proof, i, previousAnchor, hashed);
      SeeMore(seenTarget, proof[..i], node);
      assert proof[..i + 1] == proof[..i] + [node];
      if node.id == "" || node.canonicalDigest == "" {
        return false;
      }
      if node.hash == "" {
        if hashed || node.prevHash != "" {
          return false;
        }
        previousAnchor := node.canonicalDigest;
      } else {
        hashed := true;
        if node.prevHash != previousAnchor || node.hash != node.canonicalDigest {
          return false;
        }
        previousAnchor := node.hash;
      }
      if node.target {
        if node.id !in targets || targets[node.id].hash != node.hash || targets[node.id].prevHash != node.prevHash
           || targets[node.id].canonicalDigest != node.canonicalDigest {
          return false;
        }
        seenTarget := seenTarget + {node.id};
      } else if node.id in targets {
        return false;
      }
    }
    assert proof[..|proof|] == proof;
    CountDecides(seenTarget, targets, audits, proof);
    ok := |seenTarget| == |targets|;
  }

  lemma NothingSeen(proof: seq<Node>)
    ensures SeenAre({}, []) && AnchorBefore(proof, 0) == ""
  {
  }

  lemma FindTarget(targets: map<string, Summary>, audits: seq<Summary>, node: Node)
    requires Indexes(targets, audits)
    ensures node.target ==> (NodeMatches(audits, node) <==>
      node.id in targets && targets[node.id].hash == node.hash && targets[node.id].prevHash == node.prevHash
      && targets[node.id].canonicalDigest == node.canonicalDigest)
    ensures !node.target ==> (NodeMatches(audits, node) <==> node.id !in targets)
  {
    if node.id in targets {
      var k :| 0 <= k < |audits| && audits[k].id == node.id;
      assert targets[node.id] == audits[k];
      if node.Summarised() in audits {
        var j :| 0 <= j < |audits| && audits[j] == node.Summarised();
        assert targets[audits[j].id] == audits[j];
      }
    }
  }

  lemma SeeMore(seen: set<string>, proof: seq<Node>, node: Node)
    requires SeenAre(seen, proof)
    ensures SeenAre(if node.target then seen + {node.id} else seen, proof + [node])
  {
    var longer := proof + [node];
    forall id: string
      ensures Embedded(longer, id) <==> Embedded(proof, id) || (node.target && node.id == id)
    {
      if Embedded(proof, id) {
        var i :| 0 <= i < |proof| && proof[i].target && proof[i].id == id;
        assert longer[i] == proof[i];
      }
      assert longer[|proof|] == node;
    }
  }

  lemma SameSize<T>(a: set<T>, b: set<T>)
    requires a <= b && |a| == |b|
    ensures a == b
  {
    assert |b - a| == |b| - |a|;
    assert b == a + (b - a);
  }

  /** Counting the targets seen is as good as looking for each of them. */
  lemma CountDecides(seen: set<string>, targets: map<string, Summary>, audits: seq<Summary>, proof: seq<Node>)
    requires Indexes(targets, audits) && SeenAre(seen, proof) && seen <= targets.Keys
    ensures |seen| == |targets| <==> forall k :: 0 <= k < |audits| ==> Embedded(proof, audits[k].id)
  {
    hide Embedded;
    assert |targets| == |targets.Keys|;
    if |seen| == |targets| {
      SameSize(seen, targets.Keys);
    }
    if forall k :: 0 <= k < |audits| ==> Embedded(proof, audits[k].id) {
      forall id | id in targets
        ensures id in seen
      {
        var k :| 0 <= k < |audits| && audits[k].id == id;
        assert Embedded(proof, audits[k].id);
      }
      assert seen == targets.Keys;
    }
  }

  // ----- What acceptance means -------------------------------------------------

  function TargetSet(proof: seq<Node>): set<Summary> {
    set i | 0 <= i < |proof| && proof[i].target :: proof[i].Summarised()
  }

  function SummarySet(audits: seq<Summary>): set<Summary> {
    set k | 0 <= k < |audits| :: audits[k]
  }

  /** Accepted summaries are the target nodes, all of them and nothing else, each once. */
  lemma AcceptedSummariesAreTheTargets(audits: seq<Summary>, proof: seq<Node>)
    requires ProofValid(audits, proof)
    ensures SummarySet(audits) == TargetSet(proof)
    ensures forall j, k :: 0 <= j < k < |audits| ==> audits[j] != audits[k]
  {
    forall k | 0 <= k < |audits|
      ensures audits[k] in TargetSet(proof)
    {
      assert Embedded(proof, audits[k].id);
      var i :| 0 <= i < |proof| && proof[i].target && proof[i].id == audits[k].id;
      assert NodeMatches(audits, proof[i]);
      var j :| 0 <= j < |audits| && audits[j] == proof[i].Summarised();
      assert audits[j].id == audits[k].id;
      assert j == k;
    }
    forall i | 0 <= i < |proof| && proof[i].target
      ensures proof[i].Summarised() in SummarySet(audits)
    {
      assert NodeMatches(audits, proof[i]);
      var j :| 0 <= j < |audits| && audits[j] == proof[i].Summarised();
      assert audits[j] in SummarySet(audits);
    }
  }

  /** Past the legacy prefix, each accepted node names the digest of the node before it. */
  lemma AcceptedProofIsAChain(audits: seq<Summary>, proof: seq<Node>, i: nat)
    requires ProofValid(audits, proof) && 0 < i < |proof| && proof[i].hash != ""
    ensures proof[i].prevHash == proof[i - 1].canonicalDigest
    ensures forall j :: i <= j < |proof| ==> proof[j].hash != ""
  {
    assert NodeChained(proof, i) && NodeChained(proof, i - 1);
    forall j | i < j < |proof|
      ensures proof[j].hash != ""
    {
      assert NodeChained(proof, j);
    }
  }

  // ----- Which chains can be proved --------------------------------------------

  /** The stored fields already are what the chain check reads. */
  predicate Plain(e: Event) {
    && e.id != ""
    && e.hash == TrimLower(e.hash)
    && e.prevHash == if e.hash == "" then "" else TrimLower(e.prevHash)
  }

  predicate Separated(change: Change, chain: seq<Event>) {
    forall i, j :: 0 <= i < j < |chain| && chain[i].id == chain[j].id ==>
      !IsTarget(change, chain[i]) && !IsTarget(change, chain[j])
  }

  predicate Projectable(change: Change, chain: seq<Event>) {
    AllPlain(chain, |chain|) && Separated(change, chain)
  }

  lemma {:induction false} WholeLogIsChain(org: string, log: seq<Event>)
    requires forall i :: 0 <= i < |log| ==> Organization(log[i]) == org
    ensures Of(org, log) == log
    decreases |log|
  {
    hide Organization;
    if log != [] {
      var n := |log| - 1;
      WholeLogIsChain(org, log[..n]);
      assert log == log[..n] + [log[n]];
    }
  }

  lemma BuildableIsChain(digest: Digest, change: Change, chain: seq<Event>)
    requires Buildable(digest, change, chain)
    ensures ChainValid(digest, chain)
  {
    hide ChainValid, Trim;
    var org := Trim(change.organization);
    WholeLogIsChain(org, chain);
    assert ChainValid(digest, Of(org, chain));
  }

  /** What digests and normal forms say about one event. */
  lemma EventFacts(digest: Digest, e: Event)
    requires HexDigest(digest)
    ensures Normalize(e).hash == TrimLower(e.hash) && Normalize(e).prevHash == TrimLower(e.prevHash)
    ensures Normalize(e).hash == "" <==> Blank(e.hash)
    ensures var d := DigestOf(digest, e);
            DigestOf(digest, Normalize(e)) == d && d != "" && TrimLower(d) == d && TrimLower("") == ""
  {
    hide Normalize, Canonical, TrimLower, Hex;
    NormalHash(e);
    CanonicalIgnoresHash(e, "");
    assert Hex(DigestOf(digest, e));
    HexFixpoint(DigestOf(digest, e));
    HexNotEmpty(DigestOf(digest, e));
    EmptyFixpoint();
  }

  lemma HashedAlike(digest: Digest, change: Change, chain: seq<Event>, i: nat)
    requires HexDigest(digest) && i <= |chain| && forall j :: 0 <= j < i ==> Plain(chain[j])
    ensures forall j :: 0 <= j < i ==> (Hashed(chain[j]) <==> Nodes(digest, change, chain)[j].hash != "")
  {
    hide Normalize, TrimLower, IsTarget, DigestOf;
    forall j | 0 <= j < i
      ensures Hashed(chain[j]) <==> Nodes(digest, change, chain)[j].hash != ""
    {
      EventFacts(digest, chain[j]);
    }
  }

  /** The chain's reading of one event, in terms of its stored fields. */
  lemma FollowsPlainly(digest: Digest, chain: seq<Event>, i: nat)
    requires HexDigest(digest) && ChainValid(digest, chain) && i < |chain|
    ensures var e := chain[i];
            if TrimLower(e.hash) == "" then forall j :: 0 <= j < i ==> !Hashed(chain[j])
            else TrimLower(e.prevHash) == ExpectedPrev(digest, chain[..i]) && TrimLower(e.hash) == DigestOf(digest, e)
  {
    hide Normalize, TrimLower, DigestOf, ExpectedPrev, Hashed;
    EventFacts(digest, chain[i]);
    assert Follows(digest, chain[..i], chain[i]);
  }

  /** One event: the checker's reading of the stored fields against the chain's reading. */
  lemma NodeChainedIff(digest: Digest, change: Change, chain: seq<Event>, i: nat)
    requires HexDigest(digest) && ChainValid(digest, chain) && i < |chain|
    requires forall j :: 0 <= j < i ==> Plain(chain[j])
    ensures NodeChained(Nodes(digest, change, chain), i) <==> Plain(chain[i])
  {
    hide Normalize, TrimLower, IsTarget, Hex, HexDigest, ChainValid, Hashed, AnchorBefore, ExpectedPrev, DigestOf;
    EventFacts(digest, chain[i]);
    FollowsPlainly(digest, chain, i);
    HashedAlike(digest, change, chain, i);
    if i > 0 {
      AnchorsAgree(digest, change, chain, i);
    } else {
      NoAnchor(digest, Nodes(digest, change, chain), chain);
    }
  }

  lemma NoAnchor(digest: Digest, proof: seq<Node>, chain: seq<Event>)
    ensures AnchorBefore(proof, 0) == "" == ExpectedPrev(digest, chain[..0])
  {
  }

  lemma AnchorsAgree(digest: Digest, change: Change, chain: seq<Event>, i: nat)
    requires HexDigest(digest) && 0 < i < |chain| && Plain(chain[i - 1]) && ChainValid(digest, chain)
    ensures AnchorBefore(Nodes(digest, change, chain), i) == ExpectedPrev(digest, chain[..i])
    ensures TrimLower(ExpectedPrev(digest, chain[..i])) == ExpectedPrev(digest, chain[..i])
  {
    hide Normalize, TrimLower, IsTarget, Hex, DigestOf;
    EventFacts(digest, chain[i - 1]);
  }

  predicate AllPlain(chain: seq<Event>, n: nat)
    requires n <= |chain|
  {
    forall i :: 0 <= i < n ==> Plain(chain[i])
  }

  predicate AllChained(proof: seq<Node>, n: nat)
    requires n <= |proof|
  {
    forall i :: 0 <= i < n ==> NodeChained(proof, i)
  }

  lemma {:induction false} AllChainedIff(digest: Digest, change: Change, chain: seq<Event>, n: nat)
    requires HexDigest(digest) && ChainValid(digest, chain) && n <= |chain|
    ensures AllChained(Nodes(digest, change, chain), n) <==> AllPlain(chain, n)
    decreases n
  {
    hide Plain, NodeChained, ChainValid, Nodes, HexDigest, NodeOf;
    if n > 0 {
      AllChainedIff(digest, change, chain, n - 1);
      if AllPlain(chain, n - 1) {
        NodeChainedIff(digest, change, chain, n - 1);
      }
    }
  }

  // Which nodes the summaries speak of.

  lemma {:induction false} TargetsAre(nodes: seq<Node>, s: Summary)
    ensures s in TargetsOf(nodes) <==> exists i :: 0 <= i < |nodes| && nodes[i].target && nodes[i].Summarised() == s
    decreases |nodes|
  {
    if nodes != [] {
      var n := |nodes| - 1;
      TargetsAre(nodes[..n], s);
      if s in TargetsOf(nodes[..n]) {
        var i :| 0 <= i < n && nodes[..n][i].target && nodes[..n][i].Summarised() == s;
        assert nodes[i].target && nodes[i].Summarised() == s;
      }
      if exists i :: 0 <= i < |nodes| && nodes[i].target && nodes[i].Summarised() == s {
        var i :| 0 <= i < |nodes| && nodes[i].target && nodes[i].Summarised() == s;
        if i < n {
          assert nodes[..n][i].target && nodes[..n][i].Summarised() == s;
        }
      }
    }
  }

  predicate SeparatedNodes(nodes: seq<Node>) {
    forall i, j :: 0 <= i < j < |nodes| && nodes[i].id == nodes[j].id ==> !nodes[i].target && !nodes[j].target
  }

  predicate TargetsApart(nodes: seq<Node>) {
    forall i, j :: 0 <= i < j < |nodes| && nodes[i].target && nodes[j].target ==> nodes[i].id != nodes[j].id
  }

  lemma {:induction false} DistinctTargets(nodes: seq<Node>)
    requires forall i :: 0 <= i < |nodes| ==> nodes[i].id != "" && nodes[i].canonicalDigest != ""
    ensures DistinctSummaries(TargetsOf(nodes)) <==> TargetsApart(nodes)
    decreases |nodes|
  {
    if nodes != [] {
      var n := |nodes| - 1;
      var before, all := TargetsOf(nodes[..n]), TargetsOf(nodes);
      DistinctTargets(nodes[..n]);
      if nodes[n].target {
        LastTarget(nodes);
        assert all == before + [nodes[n].Summarised()];
        if DistinctSummaries(all) {
          forall j, k | 0 <= j < k < |before|
            ensures before[j].id != before[k].id
          {
            assert all[j].id != all[k].id;
          }
          forall k | 0 <= k < |before|
            ensures before[k].id != "" && before[k].canonicalDigest != ""
          {
            assert all[k] == before[k];
          }
          assert forall k :: 0 <= k < |before| ==> all[k] == before[k] && all[k].id != all[|before|].id;
          assert !Mentions(before, nodes[n].id);
        }
      } else {
        assert all == before;
      }
      ApartSplit(nodes);
    }
  }

  predicate LastApart(nodes: seq<Node>)
    requires nodes != []
  {
    var n := |nodes| - 1;
    nodes[n].target ==> forall i :: 0 <= i < n && nodes[i].target ==> nodes[i].id != nodes[n].id
  }

  lemma ApartSplit(nodes: seq<Node>)
    requires nodes != []
    ensures var n := |nodes| - 1;
            TargetsApart(nodes) <==> (TargetsApart(nodes[..n]) && LastApart(nodes))
  {
    var n := |nodes| - 1;
    if TargetsApart(nodes) {
      assert forall i, j :: 0 <= i < j < n && nodes[..n][i].target && nodes[..n][j].target ==> nodes[i].id != nodes[j].id;
    }
    if TargetsApart(nodes[..n]) {
      forall i, j | 0 <= i < j < n && nodes[i].target && nodes[j].target
        ensures nodes[i].id != nodes[j].id
      {
        assert nodes[..n][i].target && nodes[..n][j].target;
      }
    }
  }

  lemma LastTarget(nodes: seq<Node>)
    requires nodes != []
    ensures var n := |nodes| - 1;
            Mentions(TargetsOf(nodes[..n]), nodes[n].id) <==>
              exists i :: 0 <= i < n && nodes[i].target && nodes[i].id == nodes[n].id
  {
    var n := |nodes| - 1;
    var before := TargetsOf(nodes[..n]);
    if Mentions(before, nodes[n].id) {
      var k :| 0 <= k < |before| && before[k].id == nodes[n].id;
      TargetsAre(nodes[..n], before[k]);
      assert before[k] in before;
      var i :| 0 <= i < n && nodes[..n][i].target && nodes[..n][i].Summarised() == before[k];
      assert nodes[i].target && nodes[i].id == nodes[n].id;
    }
    if exists i :: 0 <= i < n && nodes[i].target && nodes[i].id == nodes[n].id {
      var i :| 0 <= i < n && nodes[i].target && nodes[i].id == nodes[n].id;
      TargetsAre(nodes[..n], nodes[i].Summarised());
      assert nodes[..n][i].target && nodes[..n][i].Summarised() == nodes[i].Summarised();
      var k :| 0 <= k < |before| && before[k] == nodes[i].Summarised();
      assert before[k].id == nodes[n].id;
    }
  }

  lemma MentionedTargets(nodes: seq<Node>, id: string)
    ensures Mentions(TargetsOf(nodes), id) <==> Embedded(nodes, id)
  {
    var audits := TargetsOf(nodes);
    if Mentions(audits, id) {
      var k :| 0 <= k < |audits| && audits[k].id == id;
      TargetsAre(nodes, audits[k]);
      assert audits[k] in audits;
      var i :| 0 <= i < |nodes| && nodes[i].target && nodes[i].Summarised() == audits[k];
      assert nodes[i].id == id;
    }
    if Embedded(nodes, id) {
      var i :| 0 <= i < |nodes| && nodes[i].target && nodes[i].id == id;
      TargetsAre(nodes, nodes[i].Summarised());
      var k :| 0 <= k < |audits| && audits[k] == nodes[i].Summarised();
      assert audits[k].id == id;
    }
  }

  lemma NothingMentionedTwice(nodes: seq<Node>)
    ensures SeparatedNodes(nodes) <==>
      TargetsApart(nodes) && forall i :: 0 <= i < |nodes| && !nodes[i].target ==> !Embedded(nodes, nodes[i].id)
  {
    if SeparatedNodes(nodes) {
      assert forall i, j :: 0 <= i < |nodes| && 0 <= j < |nodes| && !nodes[i].target && nodes[j].target ==> i != j;
    } else {
      var i, j :| 0 <= i < j < |nodes| && nodes[i].id == nodes[j].id && (nodes[i].target || nodes[j].target);
      assert nodes[i].target ==> Embedded(nodes, nodes[j].id);
      assert nodes[j].target ==> Embedded(nodes, nodes[i].id);
    }
  }

  /** Against its own summaries, a proof can only fail by its links or by a shared identifier. */
  lemma OwnSummaries(nodes: seq<Node>)
    requires AllChained(nodes, |nodes|)
    ensures ProofValid(TargetsOf(nodes), nodes) <==> SeparatedNodes(nodes)
  {
    hide TargetsOf, Mentions, Embedded, DistinctSummaries, SeparatedNodes, TargetsApart;
    var audits := TargetsOf(nodes);
    forall i | 0 <= i < |nodes|
      ensures nodes[i].id != "" && nodes[i].canonicalDigest != ""
    {
      assert NodeChained(nodes, i);
    }
    DistinctTargets(nodes);
    NothingMentionedTwice(nodes);
    forall id: string
      ensures Mentions(audits, id) <==> Embedded(nodes, id)
    {
      MentionedTargets(nodes, id);
    }
    forall i | 0 <= i < |nodes|
      ensures NodeMatches(audits, nodes[i]) <==> nodes[i].target || !Embedded(nodes, nodes[i].id)
    {
      TargetsAre(nodes, nodes[i].Summarised());
    }
    forall k | 0 <= k < |audits|
      ensures Embedded(nodes, audits[k].id)
    {
      EachIsMentioned(audits, k);
    }
  }

  lemma EachIsMentioned(audits: seq<Summary>, k: nat)
    requires k < |audits|
    ensures Mentions(audits, audits[k].id)
  {
  }

  /**
   What the builder emits for an accepted chain is accepted exactly when the stored fields are
   in normal form, legacy events carry no predecessor, and no target shares its identifier.
   */
  lemma EvidenceAcceptedExactly(digest: Digest, change: Change, chain: seq<Event>)
    requires HexDigest(digest) && Buildable(digest, change, chain)
    ensures var proof := Nodes(digest, change, chain);
            ProofValid(TargetsOf(proof), proof) <==> Projectable(change, chain)
  {
    hide Plain, IsTarget, NodeMatches, ChainValid, HexDigest, Buildable, DistinctSummaries, TargetsOf;
    var proof := Nodes(digest, change, chain);
    BuildableIsChain(digest, change, chain);
    AllChainedIff(digest, change, chain, |chain|);
    SeparationCarriesOver(digest, change, chain);
    if AllChained(proof, |proof|) {
      OwnSummaries(proof);
    }
  }

  lemma SeparationCarriesOver(digest: Digest, change: Change, chain: seq<Event>)
    ensures SeparatedNodes(Nodes(digest, change, chain)) <==> Separated(change, chain)
  {
    hide IsTarget, DigestOf;
  }

  // ----- What evidence shows ---------------------------------------------------

  predicate Names(change: Change, e: Event) {
    change.id == e.changeId || (e.resourceType == "CHANGE" && change.id == e.resourceId)
  }

  /** Where the log names a change: by its identifier, or as the change it is the resource of. */
  function Places(change: Change, chain: seq<Event>): seq<nat> {
    if chain == [] then []
    else
      var n := |chain| - 1;
      Places(change, chain[..n]) + if Names(change, chain[n]) then [n] else []
  }

  /** All of these places, in order. */
  lemma {:induction false} PlacesAre(change: Change, chain: seq<Event>)
    ensures Ascending(Places(change, chain), |chain|)
    ensures forall i :: 0 <= i < |chain| ==> (i in Places(change, chain) <==> Names(change, chain[i]))
    decreases |chain|
  {
    hide Names, Ascending;
    if chain == [] {
      assert Ascending([], 0) by { NoPlaces(); }
    } else {
      var n := |chain| - 1;
      var before := Places(change, chain[..n]);
      PlacesAre(change, chain[..n]);
      AscendingGrows(before, n);
      assert Places(change, chain) == if Names(change, chain[n]) then before + [n] else before;
      forall i | 0 <= i < |chain|
        ensures i in Places(change, chain) <==> Names(change, chain[i])
      {
        if i < n {
          assert chain[..n][i] == chain[i];
        }
      }
    }
  }

  /** A summary of an event: its identifier, its link and its digest. */
  function Told(digest: Digest, e: Event): Summary {
    Summary(e.id, e.prevHash, e.hash, digest(Canonical(e)))
  }

  lemma TargetsNow(digest: Digest, change: Change, chain: seq<Event>)
    requires chain != []
    ensures var n := |chain| - 1;
            TargetsOf(Nodes(digest, change, chain))
            == TargetsOf(Nodes(digest, change, chain[..n])) + if Names(change, chain[n]) then [Told(digest, chain[n])] else []
  {
    hide Canonical;
    var n := |chain| - 1;
    assert Nodes(digest, change, chain)[..n] == Nodes(digest, change, chain[..n]);
  }

  /** These are the summaries of the events at these places. */
  predicate Listed(digest: Digest, chain: seq<Event>, places: seq<nat>, summaries: seq<Summary>) {
    |summaries| == |places| && forall k :: 0 <= k < |places| ==> places[k] < |chain| && summaries[k] == Told(digest, chain[places[k]])
  }

  lemma ListedLonger(digest: Digest, chain: seq<Event>, places: seq<nat>, summaries: seq<Summary>, named: bool)
    requires chain != [] && Listed(digest, chain[..|chain| - 1], places, summaries)
    ensures var n := |chain| - 1;
            Listed(digest, chain, places + (if named then [n] else []), summaries + if named then [Told(digest, chain[n])] else [])
  {
    hide Told;
  }

  lemma PlacesNow(change: Change, chain: seq<Event>)
    requires chain != []
    ensures var n := |chain| - 1; Places(change, chain) == Places(change, chain[..n]) + if Names(change, chain[n]) then [n] else []
  {
  }

  /** The summaries of a change's evidence: its own events, all of them, in order, each with its link and digest, and no other. */
  lemma {:induction false} SummariesExactly(digest: Digest, change: Change, chain: seq<Event>)
    ensures Listed(digest, chain, Places(change, chain), TargetsOf(Nodes(digest, change, chain)))
    decreases |chain|
  {
    hide Told, TargetsOf, Listed, Names, Places;
    if chain == [] {
      NothingTold(digest, change);
    } else {
      var n := |chain| - 1;
      SummariesExactly(digest, change, chain[..n]);
      TargetsNow(digest, change, chain);
      PlacesNow(change, chain);
      ListedLonger(digest, chain, Places(change, chain[..n]), TargetsOf(Nodes(digest, change, chain[..n])), Names(change, chain[n]));
    }
  }

  lemma NothingTold(digest: Digest, change: Change)
    ensures Listed(digest, [], Places(change, []), TargetsOf(Nodes(digest, change, [])))
  {
  }

  /** Of every event the proof shows its identifier, its link, its digest and whether it names the change; nothing else of it. */
  lemma ProofExactly(digest: Digest, change: Change, chain: seq<Event>, i: nat)
    requires i < |chain|
    ensures Nodes(digest, change, chain)[i]
         == Node(chain[i].id, chain[i].hash, chain[i].prevHash, digest(Canonical(chain[i])), Names(change, chain[i]))
  {
    hide Canonical;
  }
}
