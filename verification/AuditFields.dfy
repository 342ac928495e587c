/**
 The audit chain field by field: which differences between two events their digest can see,
 what tampering a valid log shows, and what the store keeps of an event it appends.
 */
module AuditFields {
  import opened Wrappers
  import opened Text
  import opened AuditChain

  // ----- What the digest sees --------------------------------------------------

  /** The text fields, up to white space around them. */
  predicate SameTexts(a: Event, b: Event) {
    && Trim(a.organization) == Trim(b.organization) && Trim(a.id) == Trim(b.id)
    && Trim(a.changeId) == Trim(b.changeId) && Trim(a.requestId) == Trim(b.requestId)
    && Trim(a.actorId) == Trim(b.actorId) && Trim(a.actorName) == Trim(b.actorName)
    && Trim(a.relatedEventId) == Trim(b.relatedEventId) && Trim(a.attemptId) == Trim(b.attemptId)
    && Trim(a.passportId) == Trim(b.passportId) && Trim(a.detail) == Trim(b.detail)
  }

  /** The identifiers that also ignore letter case, the versions and the time. */
  predicate SameCodes(a: Event, b: Event) {
    && TrimUpper(a.authMethod) == TrimUpper(b.authMethod) && TrimUpper(a.action) == TrimUpper(b.action)
    && TrimUpper(a.reasonCode) == TrimUpper(b.reasonCode)
    && TrimLower(a.requestDigest) == TrimLower(b.requestDigest) && TrimLower(a.prevHash) == TrimLower(b.prevHash)
    && a.versionBefore == b.versionBefore && a.versionAfter == b.versionAfter && a.createdAt == b.createdAt
  }

  /** An event about a change that names no resource is about that change. */
  function ResourceTypeSaid(e: Event): string {
    if Blank(e.resourceType) && !Blank(e.changeId) then "CHANGE" else TrimUpper(e.resourceType)
  }

  function ResourceIdSaid(e: Event): string {
    if Blank(e.resourceId) then Trim(e.changeId) else Trim(e.resourceId)
  }

  /** An actor of no stated type is told by the beginning of its identifier. */
  function ActorTypeSaid(e: Event): string {
    if !Blank(e.actorType) then TrimUpper(e.actorType)
    else if HasPrefix(TrimLower(e.actorId), "ci:") then "CI"
    else if HasPrefix(TrimLower(e.actorId), "system") || HasPrefix(TrimLower(e.actorId), "integration") then "SYSTEM"
    else "USER"
  }

  function ResultSaid(e: Event): string {
    if Blank(e.result) then "SUCCESS" else TrimUpper(e.result)
  }

  /** The four fields with a default. */
  predicate SameDefaulted(a: Event, b: Event) {
    && ResourceTypeSaid(a) == ResourceTypeSaid(b) && ResourceIdSaid(a) == ResourceIdSaid(b)
    && ActorTypeSaid(a) == ActorTypeSaid(b) && ResultSaid(a) == ResultSaid(b)
  }

  /** Two events that say the same, their own hashes aside. */
  predicate SaysTheSame(a: Event, b: Event) {
    SameTexts(a, b) && SameCodes(a, b) && SameDefaulted(a, b)
  }

  lemma UpperOfNothing(s: string)
    ensures TrimUpper(s) == "" <==> Blank(s)
    ensures Trim(s) == "" <==> Blank(s)
  {
    TrimEmptyIffBlank(s);
    assert |TrimUpper(s)| == |Trim(s)|;
  }

  /** An event as it is kept: tidied field by field, with its defaults, its link aside. */
  predicate Tidied(e: Event, kept: Event) {
    && kept.organization == Trim(e.organization) && kept.id == Trim(e.id) && kept.changeId == Trim(e.changeId)
    && kept.requestId == Trim(e.requestId) && kept.actorId == Trim(e.actorId) && kept.actorName == Trim(e.actorName)
    && kept.relatedEventId == Trim(e.relatedEventId) && kept.attemptId == Trim(e.attemptId)
    && kept.passportId == Trim(e.passportId) && kept.detail == Trim(e.detail)
    && kept.authMethod == TrimUpper(e.authMethod) && kept.action == TrimUpper(e.action) && kept.reasonCode == TrimUpper(e.reasonCode)
    && kept.requestDigest == TrimLower(e.requestDigest)
    && kept.versionBefore == e.versionBefore && kept.versionAfter == e.versionAfter && kept.createdAt == e.createdAt
    && kept.resourceType == ResourceTypeSaid(e) && kept.resourceId == ResourceIdSaid(e)
    && kept.actorType == ActorTypeSaid(e) && kept.result == ResultSaid(e)
  }

  lemma DefaultsSaid(e: Event)
    ensures var n := Normalize(e);
            && n.resourceType == ResourceTypeSaid(e) && n.resourceId == ResourceIdSaid(e)
            && n.actorType == ActorTypeSaid(e) && n.result == ResultSaid(e)
  {
    hide Trim, TrimUpper, Blank, HasPrefix;
    UpperOfNothing(e.resourceType);
    UpperOfNothing(e.changeId);
    UpperOfNothing(e.resourceId);
    UpperOfNothing(e.actorType);
    UpperOfNothing(e.result);
  }

  lemma NormalizeTidies(e: Event)
    ensures Tidied(e, Normalize(e)) && Normalize(e).prevHash == TrimLower(e.prevHash) && Normalize(e).hash == TrimLower(e.hash)
  {
    hide Trim, TrimUpper, TrimLower, InferredActor, ResourceTypeSaid, ResourceIdSaid, ActorTypeSaid, ResultSaid;
    DefaultsSaid(e);
  }

  /** Two events have the same digested payload exactly when they say the same. */
  lemma CanonicalExactly(a: Event, b: Event)
    ensures Canonical(a) == Canonical(b) <==> SaysTheSame(a, b)
  {
    hide Trim, TrimUpper, TrimLower, InferredActor, ResourceTypeSaid, ResourceIdSaid, ActorTypeSaid, ResultSaid;
    NormalizeTidies(a);
    NormalizeTidies(b);
    if SaysTheSame(a, b) {
      assert Canonical(a) == Canonical(b);
    }
  }

  // ----- Validity, event by event ----------------------------------------------

  predicate SameChain(a: Event, b: Event) {
    Trim(a.organization) == Trim(b.organization)
  }

  /** The nearest earlier event of the same organisation. */
  predicate Precedes(log: seq<Event>, i: nat, j: nat)
    requires i < j < |log|
  {
    SameChain(log[i], log[j]) && forall k :: i < k < j ==> !SameChain(log[k], log[j])
  }

  /** What a successor has to name: the stored hash, or the digest of an event from before hashing. */
  function Fingerprint(digest: Digest, e: Event): string {
    if Blank(e.hash) then digest(Canonical(e)) else TrimLower(e.hash)
  }

  /** One event in its place: unhashed at the beginning of its chain only, else digested and linked. */
  predicate EventHolds(digest: Digest, log: seq<Event>, j: nat)
    requires j < |log|
  {
    var e := log[j];
    if Blank(e.hash) then forall i :: 0 <= i < j && SameChain(log[i], e) ==> Blank(log[i].hash)
    else
      && TrimLower(e.hash) == digest(Canonical(e))
      && (forall i :: 0 <= i < j && Precedes(log, i, j) ==> TrimLower(e.prevHash) == Fingerprint(digest, log[i]))
      && ((forall i :: 0 <= i < j ==> !SameChain(log[i], e)) ==> Blank(e.prevHash))
  }

  predicate AllUnhashed(org: string, log: seq<Event>) {
    forall i :: 0 <= i < |log| && Trim(log[i].organization) == org ==> Blank(log[i].hash)
  }

  predicate NoneHashed(chain: seq<Event>) {
    forall k :: 0 <= k < |chain| ==> !Hashed(chain[k])
  }

  /** The place of an organisation's last event in the log. */
  predicate IsLast(org: string, log: seq<Event>, i: nat) {
    i < |log| && Trim(log[i].organization) == org && forall k :: i < k < |log| ==> Trim(log[k].organization) != org
  }

  lemma UnhashedAppend(org: string, log: seq<Event>, e: Event)
    ensures AllUnhashed(org, log + [e]) <==> AllUnhashed(org, log) && (Trim(e.organization) == org ==> Blank(e.hash))
    ensures NoneHashed(log + [e]) <==> NoneHashed(log) && Blank(e.hash)
  {
    hide Trim, Normalize, Blank;
    NormalHash(e);
    var longer := log + [e];
    assert longer[|log|] == e && forall i :: 0 <= i < |log| ==> longer[i] == log[i];
  }

  lemma {:induction false} UnhashedIn(org: string, log: seq<Event>)
    ensures NoneHashed(Of(org, log)) <==> AllUnhashed(org, log)
    decreases |log|
  {
    hide Trim, NoneHashed, AllUnhashed;
    if log == [] {
      NothingUnhashed(org);
    } else {
      var n := |log| - 1;
      assert log == log[..n] + [log[n]];
      UnhashedIn(org, log[..n]);
      UnhashedAppend(org, log[..n], log[n]);
      UnhashedAppend(org, Of(org, log[..n]), log[n]);
    }
  }

  lemma NothingUnhashed(org: string)
    ensures NoneHashed([]) && AllUnhashed(org, []) && Of(org, []) == []
  {
  }

  lemma {:induction false} LastAt(org: string, log: seq<Event>) returns (i: nat)
    requires Of(org, log) != []
    ensures IsLast(org, log, i) && log[i] == Of(org, log)[|Of(org, log)| - 1]
    decreases |log|
  {
    hide Trim;
    var n := |log| - 1;
    if Trim(log[n].organization) == org {
      i := n;
    } else {
      i := LastAt(org, log[..n]);
      assert forall k :: 0 <= k < n ==> log[k] == log[..n][k];
    }
  }

  lemma {:induction false} NobodyIn(org: string, log: seq<Event>)
    requires Of(org, log) == []
    ensures forall k :: 0 <= k < |log| ==> Trim(log[k].organization) != org
    decreases |log|
  {
    hide Trim;
    if log != [] {
      var n := |log| - 1;
      NobodyIn(org, log[..n]);
      assert forall k :: 0 <= k < n ==> log[k] == log[..n][k];
    }
  }

  lemma AnchorIsFingerprint(digest: Digest, e: Event)
    ensures Anchor(digest, Normalize(e)) == Fingerprint(digest, e)
  {
    hide Normalize, Trim, TrimLower, Blank, Canonical;
    NormalHash(e);
    CanonicalIgnoresHash(e, "");
  }

  lemma UnhashedFollows(digest: Digest, log: seq<Event>, e: Event)
    requires Blank(e.hash)
    ensures Follows(digest, Of(Organization(e), log), e) <==> EventHolds(digest, log + [e], |log|)
  {
    hide Trim, Normalize, Blank, Of;
    var longer, n := log + [e], |log|;
    NormalHash(e);
    UnhashedIn(Organization(e), log);
    assert longer[n] == e && forall i :: 0 <= i < n ==> longer[i] == log[i];
  }

  /** The digest condition of a hashed event, and what its link has to name. */
  lemma HashedFollows(digest: Digest, chain: seq<Event>, e: Event)
    requires !Blank(e.hash)
    ensures Follows(digest, chain, e) <==> TrimLower(e.hash) == digest(Canonical(e))
                                           && TrimLower(e.prevHash) == if chain == [] then "" else Fingerprint(digest, chain[|chain| - 1])
  {
    hide Trim, TrimLower, Normalize, Blank, Canonical, Fingerprint, Anchor;
    NormalHash(e);
    CanonicalIgnoresHash(e, "");
    if chain != [] {
      AnchorIsFingerprint(digest, chain[|chain| - 1]);
    }
  }

  lemma FirstHolds(digest: Digest, log: seq<Event>, e: Event)
    requires !Blank(e.hash) && forall k :: 0 <= k < |log| ==> Trim(log[k].organization) != Trim(e.organization)
    ensures EventHolds(digest, log + [e], |log|) <==> TrimLower(e.hash) == digest(Canonical(e)) && Blank(e.prevHash)
  {
    hide Trim, TrimLower, Blank, Canonical, Fingerprint;
    var longer, n := log + [e], |log|;
    assert longer[n] == e && forall i :: 0 <= i < n ==> longer[i] == log[i];
  }

  lemma NextHolds(digest: Digest, log: seq<Event>, e: Event, i: nat)
    requires !Blank(e.hash) && IsLast(Trim(e.organization), log, i)
    ensures EventHolds(digest, log + [e], |log|)
       <==> TrimLower(e.hash) == digest(Canonical(e)) && TrimLower(e.prevHash) == Fingerprint(digest, log[i])
  {
    hide Trim, TrimLower, Blank, Canonical, Fingerprint;
    var longer, n := log + [e], |log|;
    assert longer[n] == e && forall k :: 0 <= k < n ==> longer[k] == log[k];
    assert Precedes(longer, i, n) && SameChain(longer[i], e);
    assert forall k :: 0 <= k < n && Precedes(longer, k, n) ==> k == i;
  }

  /** The chain's rule for a new event, told without the chain. */
  lemma FollowsExactly(digest: Digest, log: seq<Event>, e: Event)
    ensures Follows(digest, Of(Organization(e), log), e) <==> EventHolds(digest, log + [e], |log|)
  {
    hide Trim, TrimLower, Blank, Of, Canonical, Fingerprint, Follows, EventHolds;
    var chain := Of(Organization(e), log);
    if Blank(e.hash) {
      UnhashedFollows(digest, log, e);
    } else {
      HashedFollows(digest, chain, e);
      LowerOfNothing(e.prevHash);
      if chain == [] {
        NobodyIn(Organization(e), log);
        FirstHolds(digest, log, e);
      } else {
        var i := LastAt(Organization(e), log);
        NextHolds(digest, log, e, i);
      }
    }
  }

  lemma LowerOfNothing(s: string)
    ensures TrimLower(s) == "" <==> Blank(s)
  {
    TrimEmptyIffBlank(s);
    assert |TrimLower(s)| == |Trim(s)|;
  }

  lemma EventHoldsEarlier(digest: Digest, log: seq<Event>, n: nat, j: nat)
    requires j < n <= |log|
    ensures EventHolds(digest, log[..n], j) <==> EventHolds(digest, log, j)
  {
    hide Trim, TrimLower, Blank, Canonical, Fingerprint, SameChain;
    assert forall i :: 0 <= i < n ==> log[..n][i] == log[i];
    forall i | 0 <= i < j
      ensures Precedes(log[..n], i, j) <==> Precedes(log, i, j)
    {
    }
  }

  /** A log verifies exactly when each of its events holds in its place. */
  lemma {:induction false} ValidExactly(digest: Digest, log: seq<Event>)
    ensures LogValid(digest, log) <==> forall j :: 0 <= j < |log| ==> EventHolds(digest, log, j)
    decreases |log|
  {
    hide LogValid, EventHolds, Follows, Of;
    if log == [] {
      EmptyLog(digest);
    } else {
      var n := |log| - 1;
      var front := log[..n];
      assert log == front + [log[n]];
      ValidExactly(digest, front);
      LogExtend(digest, front, log[n]);
      FollowsExactly(digest, front, log[n]);
      forall j | 0 <= j < n
        ensures EventHolds(digest, front, j) <==> EventHolds(digest, log, j)
      {
        EventHoldsEarlier(digest, log, n, j);
      }
    }
  }

  // ----- Tampering -------------------------------------------------------------

  /** An event altered in a way the verifier's rules cannot tell. */
  lemma SameEverywhere(digest: Digest, log: seq<Event>, j: nat, altered: Event, k: nat)
    requires j < |log| && k < |log|
    requires SaysTheSame(log[j], altered) && TrimLower(altered.hash) == TrimLower(log[j].hash)
    ensures EventHolds(digest, log, k) ==> EventHolds(digest, log[j := altered], k)
  {
    hide Trim, TrimLower, TrimUpper, Blank, Canonical, SameDefaulted;
    var other := log[j := altered];
    CanonicalExactly(log[j], altered);
    LowerOfNothing(altered.hash);
    LowerOfNothing(log[j].hash);
    LowerOfNothing(altered.prevHash);
    LowerOfNothing(log[j].prevHash);
    assert forall i, m :: 0 <= i < |log| && 0 <= m < |log| ==> SameChain(other[i], other[m]) == SameChain(log[i], log[m]);
    assert forall i :: 0 <= i < |log| ==> Fingerprint(digest, other[i]) == Fingerprint(digest, log[i]) && Blank(other[i].hash) == Blank(log[i].hash);
    forall i | 0 <= i < k
      ensures Precedes(other, i, k) <==> Precedes(log, i, k)
    {
    }
  }

  /**
   An event stored with a hash, altered in any way that leaves its hash: the log still verifies exactly
   when the event still says the same.
   */
  lemma TamperingNoticedExactly(digest: Digest, log: seq<Event>, j: nat, altered: Event)
    requires Injective(digest) && LogValid(digest, log) && j < |log| && !Blank(log[j].hash)
    requires TrimLower(altered.hash) == TrimLower(log[j].hash)
    ensures LogValid(digest, log[j := altered]) <==> SaysTheSame(log[j], altered)
  {
    hide LogValid, EventHolds, Trim, TrimLower, Blank, Canonical, SaysTheSame;
    var other := log[j := altered];
    ValidExactly(digest, log);
    ValidExactly(digest, other);
    CanonicalExactly(log[j], altered);
    LowerOfNothing(altered.hash);
    LowerOfNothing(log[j].hash);
    if SaysTheSame(log[j], altered) {
      forall k | 0 <= k < |log|
        ensures EventHolds(digest, other, k)
      {
        SameEverywhere(digest, log, j, altered, k);
      }
    } else {
      HashedDigest(digest, log, j);
      if EventHolds(digest, other, j) {
        HashedDigest(digest, other, j);
      }
    }
  }

  lemma HashedDigest(digest: Digest, log: seq<Event>, j: nat)
    requires j < |log| && EventHolds(digest, log, j)
    ensures Fingerprint(digest, log[j]) == digest(Canonical(log[j]))
  {
    hide Trim, TrimLower, Blank, Canonical;
  }

  /** Once an event has a hashed successor, whatever hash an alteration comes with, saying something else is noticed. */
  lemma AlterationNoticed(digest: Digest, log: seq<Event>, i: nat, j: nat, altered: Event)
    requires Injective(digest) && LogValid(digest, log)
    requires i < j < |log| && Precedes(log, i, j) && !Blank(log[j].hash) && SameChain(log[i], altered)
    requires !SaysTheSame(log[i], altered)
    ensures !LogValid(digest, log[i := altered])
  {
    hide LogValid, EventHolds, Trim, TrimLower, Blank, Canonical, SaysTheSame, Fingerprint;
    var other := log[i := altered];
    ValidExactly(digest, log);
    ValidExactly(digest, other);
    CanonicalExactly(log[i], altered);
    HashedDigest(digest, log, i);
    NamesPredecessor(digest, log, i, j);
    if LogValid(digest, other) {
      HashedDigest(digest, other, i);
      assert Precedes(other, i, j);
      NamesPredecessor(digest, other, i, j);
    }
  }

  lemma NamesPredecessor(digest: Digest, log: seq<Event>, i: nat, j: nat)
    requires i < j < |log| && EventHolds(digest, log, j) && Precedes(log, i, j) && !Blank(log[j].hash)
    ensures TrimLower(log[j].prevHash) == Fingerprint(digest, log[i])
  {
    hide Trim, TrimLower, Blank, Canonical, Fingerprint, Precedes;
  }

  // ----- What the store keeps --------------------------------------------------

  /** Linking keeps all the event says, names its predecessor, and digests exactly what it keeps. */
  lemma LinkKeeps(digest: Digest, event: Event, previous: Option<Event>)
    ensures var linked := Link(digest, event, previous);
            && Tidied(event, linked) && linked.hash == digest(Canonical(linked))
            && (previous.None? ==> linked.prevHash == "")
            && (previous.Some? && previous.value.hash != "" ==> linked.prevHash == Lower(previous.value.hash))
            && (previous.Some? && previous.value.hash == "" ==> linked.prevHash == digest(Canonical(previous.value)))
  {
    hide Normalize, Trim, TrimUpper, TrimLower, Canonical, ResourceTypeSaid, ResourceIdSaid, ActorTypeSaid, ResultSaid;
    NormalizeTidies(event);
    var linked := Link(digest, event, previous);
    CanonicalIgnoresHash(linked.(hash := ""), linked.hash);
    assert linked.(hash := "").(hash := linked.hash) == linked;
  }

  /** The first of the store's changes that an event is about. */
  predicate FirstNamed(changes: seq<Change>, e: Event, i: nat) {
    && i < |changes| && changes[i].id == e.changeId && changes[i].organization == e.organization
    && forall k :: 0 <= k < i ==> !(changes[k].id == e.changeId && changes[k].organization == e.organization)
  }

  /** An event with what the store knows filled in, and nothing it says replaced but a change's resource. */
  predicate Filled(changes: seq<Change>, e: Event, id: string, now: int, p: Event) {
    && p == e.(id := p.id, createdAt := p.createdAt, resourceType := p.resourceType, resourceId := p.resourceId,
               versionBefore := p.versionBefore, versionAfter := p.versionAfter, requestDigest := p.requestDigest)
    && p.id == (if e.id == "" then id else e.id) && p.createdAt == (if e.createdAt == 0 then now else e.createdAt)
    && (if e.changeId == "" then p.resourceType == e.resourceType && p.resourceId == e.resourceId
        else p.resourceType == "CHANGE" && p.resourceId == e.changeId)
    && (e.changeId == "" || (forall i :: 0 <= i < |changes| ==> !FirstNamed(changes, e, i)) ==>
          p.versionBefore == e.versionBefore && p.versionAfter == e.versionAfter && p.requestDigest == e.requestDigest)
    && (forall i :: 0 <= i < |changes| && e.changeId != "" && FirstNamed(changes, e, i) ==>
          && p.versionAfter == (if e.versionAfter == 0 then changes[i].version else e.versionAfter)
          && p.versionBefore == (if e.versionBefore == 0 && changes[i].version > 1 then changes[i].version - 1 else e.versionBefore)
          && p.requestDigest == (if e.requestDigest == "" then changes[i].artifact else e.requestDigest))
  }

  lemma {:induction false} FirstAboutIs(changes: seq<Change>, e: Event)
    ensures FirstAbout(changes, e).None? ==> forall i :: 0 <= i < |changes| ==> !(changes[i].id == e.changeId && changes[i].organization == e.organization)
    ensures FirstAbout(changes, e).None? ==> forall i :: !FirstNamed(changes, e, i)
    ensures FirstAbout(changes, e).Some? ==> exists i :: 0 <= i < |changes| && FirstNamed(changes, e, i) && FirstAbout(changes, e).value == changes[i]
  {
    if changes != [] && !About(changes[0], e) {
      FirstAboutIs(changes[1..], e);
      assert forall k :: 1 <= k < |changes| ==> changes[k] == changes[1..][k - 1];
      if FirstAbout(changes, e).Some? {
        var i :| 0 <= i < |changes| - 1 && FirstNamed(changes[1..], e, i) && FirstAbout(changes[1..], e).value == changes[1..][i];
        assert FirstNamed(changes, e, i + 1);
      }
    } else if changes != [] {
      assert FirstNamed(changes, e, 0);
    }
  }

  lemma FirstIsOne(changes: seq<Change>, e: Event, i: nat, j: nat)
    requires FirstNamed(changes, e, i) && FirstNamed(changes, e, j)
    ensures i == j
  {
  }

  lemma DatedNames(changes: seq<Change>, e: Event, dated: Event)
    requires dated.changeId == e.changeId && dated.organization == e.organization
    ensures forall i :: FirstNamed(changes, dated, i) == FirstNamed(changes, e, i)
  {
  }

  lemma PreparedFills(changes: seq<Change>, e: Event, id: string, now: int)
    ensures Filled(changes, e, id, now, Enriched(changes, Dated(e, id, now)))
  {
    hide FirstNamed;
    var dated := Dated(e, id, now);
    FirstAboutIs(changes, dated);
    DatedNames(changes, e, dated);
    if FirstAbout(changes, dated).Some? {
      var i :| 0 <= i < |changes| && FirstNamed(changes, dated, i) && FirstAbout(changes, dated).value == changes[i];
      forall j | FirstNamed(changes, e, j)
        ensures j == i
      {
        FirstIsOne(changes, e, i, j);
      }
    }
  }

  /** The latest event stored under exactly this organisation identifier. */
  predicate LatestUnder(log: seq<Event>, organization: string, i: nat) {
    i < |log| && log[i].organization == organization && forall k :: i < k < |log| ==> log[k].organization != organization
  }

  /** The link of the event stored last names the latest one stored before it under its identifier. */
  predicate LinkedLast(digest: Digest, log: seq<Event>, organization: string)
    requires log != []
  {
    var n := |log| - 1;
    && (forall i :: 0 <= i < n && LatestUnder(log[..n], organization, i) ==>
          log[n].prevHash == if log[i].hash != "" then Lower(log[i].hash) else digest(Canonical(log[i])))
    && ((forall i :: 0 <= i < n ==> log[i].organization != organization) ==> log[n].prevHash == "")
  }

  lemma {:induction false} LatestStoredIs(log: seq<Event>, organization: string)
    ensures LatestStored(log, organization).None? ==> forall i :: 0 <= i < |log| ==> log[i].organization != organization
    ensures LatestStored(log, organization).Some? ==>
              exists i :: 0 <= i < |log| && LatestUnder(log, organization, i) && LatestStored(log, organization).value == log[i]
    decreases |log|
  {
    if log != [] {
      var n := |log| - 1;
      if log[n].organization == organization {
        assert LatestUnder(log, organization, n);
      } else {
        LatestStoredIs(log[..n], organization);
        assert forall k :: 0 <= k < n ==> log[k] == log[..n][k];
        if LatestStored(log, organization).Some? {
          var i :| 0 <= i < n && LatestUnder(log[..n], organization, i) && LatestStored(log[..n], organization).value == log[..n][i];
          assert LatestUnder(log, organization, i);
        }
      }
    }
  }

  lemma LatestIsOne(log: seq<Event>, organization: string, i: nat, j: nat)
    requires LatestUnder(log, organization, i) && LatestUnder(log, organization, j)
    ensures i == j
  {
  }

  lemma AppendedLast(digest: Digest, log: seq<Event>, event: Event)
    ensures var longer := Appended(digest, log, event);
            && log <= longer && |longer| == |log| + 1
            && Tidied(event, longer[|log|]) && longer[|log|].hash == digest(Canonical(longer[|log|]))
            && LinkedLast(digest, longer, event.organization)
  {
    hide Link, LatestStored, LatestUnder, Tidied, Canonical;
    var previous, longer, organization := LatestStored(log, event.organization), Appended(digest, log, event), event.organization;
    LinkKeeps(digest, event, previous);
    LatestStoredIs(log, organization);
    assert longer[..|log|] == log;
    forall i, j | LatestUnder(log, organization, i) && LatestUnder(log, organization, j)
      ensures i == j
    {
      LatestIsOne(log, organization, i, j);
    }
    forall i | 0 <= i < |log| && LatestUnder(log, organization, i)
      ensures log[i].organization == organization
    {
      LatestIsUnder(log, organization, i);
    }
  }

  lemma LatestIsUnder(log: seq<Event>, organization: string, i: nat)
    requires LatestUnder(log, organization, i)
    ensures i < |log| && log[i].organization == organization
  {
  }

  /** The k-th event appended: filled in, tidied, linked to what the log then held, and digested. */
  predicate StoredAs(digest: Digest, changes: seq<Change>, log: seq<Event>, e: Event, id: string, now: int, filled: Event) {
    && log != [] && Filled(changes, e, id, now, filled) && Tidied(filled, log[|log| - 1])
    && LinkedLast(digest, log, e.organization) && log[|log| - 1].hash == digest(Canonical(log[|log| - 1]))
  }

  /** Every event the store appends is kept: behind all that was stored, in order, with all that it says. */
  lemma AppendStores(digest: Digest, changes: seq<Change>, log: seq<Event>, events: seq<Event>, ids: seq<string>, now: int, k: nat)
    requires |ids| == |events| && k < |events|
    ensures var stored := AppendedAll(digest, log, Prepared(changes, events, ids, now));
            && |stored| == |log| + |events| && log <= stored
            && var e, id, reached := events[k], ids[k], stored[..|log| + k + 1];
               exists filled: Event :: StoredAs(digest, changes, reached, e, id, now, filled)
  {
    hide Filled, Tidied, LinkedLast, Canonical, Appended, Enriched, Dated, AppendedAll;
    var prepared := Prepared(changes, events, ids, now);
    AppendedInOrder(digest, log, prepared, k);
    PreparedFills(changes, events[k], ids[k], now);
    EnrichedStays(changes, events[k], ids[k], now);
    var stored := AppendedAll(digest, log, prepared);
    assert stored[..|log| + k + 1][|log| + k] == stored[|log| + k];
    assert StoredAs(digest, changes, stored[..|log| + k + 1], events[k], ids[k], now, prepared[k]);
  }

  lemma AppendedNothing(digest: Digest, log: seq<Event>)
    ensures AppendedAll(digest, log, []) == log
  {
  }

  lemma {:induction false} AppendedInOrder(digest: Digest, log: seq<Event>, events: seq<Event>, k: nat)
    requires k < |events|
    ensures var stored := AppendedAll(digest, log, events);
            && |stored| == |log| + |events| && log <= stored
            && Tidied(events[k], stored[|log| + k]) && stored[|log| + k].hash == digest(Canonical(stored[|log| + k]))
            && LinkedLast(digest, stored[..|log| + k + 1], events[k].organization)
    decreases |events|
  {
    hide Tidied, LinkedLast, Canonical, Appended;
    var longer, stored := Appended(digest, log, events[0]), AppendedAll(digest, log, events);
    AppendedLast(digest, log, events[0]);
    if |events| == 1 {
      assert events[1..] == [];
      AppendedNothing(digest, longer);
    } else {
      AppendedInOrder(digest, longer, events[1..], if k == 0 then 0 else k - 1);
    }
    if k == 0 {
      assert stored[..|log| + 1] == longer;
      assert stored[|log|] == longer[|log|];
    } else {
      assert |longer| + (k - 1) == |log| + k;
    }
  }
}
