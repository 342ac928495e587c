/**
 The organisation audit chain: one log holds many interleaved chains, each with an optional
 legacy prefix of events that were stored before hashing began.
 */
module AuditChain {
  import opened Wrappers
  import opened Text

  datatype Event = Event(
    organization: string, id: string, changeId: string, requestId: string,
    actorId: string, actorName: string, actorType: string, authMethod: string, action: string,
    resourceType: string, resourceId: string, versionBefore: int, versionAfter: int,
    requestDigest: string, result: string, reasonCode: string, relatedEventId: string,
    attemptId: string, passportId: string, detail: string, createdAt: int,
    prevHash: string, hash: string)

  /** The digest of a canonical payload: an event in normal form whose hash was taken out. */
  type Digest = Event -> string

  predicate Hex(h: string) {
    h != "" && forall i :: 0 <= i < |h| ==> '0' <= h[i] <= '9' || 'a' <= h[i] <= 'f'
  }

  ghost predicate HexDigest(digest: Digest) {
    forall payload :: Hex(digest(payload))
  }

  ghost predicate Injective(digest: Digest) {
    forall p, q :: digest(p) == digest(q) ==> p == q
  }

  // ----- Normal form -----------------------------------------------------------

  function Clean(e: Event): Event {
    Event(Trim(e.organization), Trim(e.id), Trim(e.changeId), Trim(e.requestId),
          Trim(e.actorId), Trim(e.actorName), TrimUpper(e.actorType), TrimUpper(e.authMethod), TrimUpper(e.action),
          TrimUpper(e.resourceType), Trim(e.resourceId), e.versionBefore, e.versionAfter,
          TrimLower(e.requestDigest), TrimUpper(e.result), TrimUpper(e.reasonCode), Trim(e.relatedEventId),
          Trim(e.attemptId), Trim(e.passportId), Trim(e.detail), e.createdAt,
          TrimLower(e.prevHash), TrimLower(e.hash))
  }

  function InferredActor(actorId: string): string {
    var id := Lower(actorId);
    if HasPrefix(id, "ci:") then "CI"
    else if HasPrefix(id, "system") || HasPrefix(id, "integration") then "SYSTEM"
    else "USER"
  }

  function OrElse(s: string, default: string): string {
    if s == "" then default else s
  }

  function WithDefaults(e: Event): Event {
    e.(resourceType := if e.changeId != "" then OrElse(e.resourceType, "CHANGE") else e.resourceType,
       resourceId := if e.changeId != "" then OrElse(e.resourceId, e.changeId) else e.resourceId,
       actorType := OrElse(e.actorType, InferredActor(e.actorId)),
       result := OrElse(e.result, "SUCCESS"))
  }

  function Normalize(e: Event): Event {
    WithDefaults(Clean(e))
  }

  lemma UpperFixpoint(s: string)
    requires Trimmed(s) && forall i :: 0 <= i < |s| ==> 'A' <= s[i] <= 'Z'
    ensures TrimUpper(s) == s
  {
    TrimFixpoint(s);
    assert Upper(s) == s;
  }

  lemma CleanIdempotent(e: Event)
    ensures Clean(Clean(e)) == Clean(e)
  {
    hide Trim, TrimUpper, TrimLower;
    forall s: string
      ensures Trim(Trim(s)) == Trim(s) && TrimUpper(TrimUpper(s)) == TrimUpper(s) && TrimLower(TrimLower(s)) == TrimLower(s)
    {
      TrimFixpoint(s);
      CaseTrimIdempotent(s);
    }
  }

  lemma NormalizeIdempotent(e: Event)
    ensures Normalize(Normalize(e)) == Normalize(e)
  {
    hide Trim, TrimUpper, TrimLower, InferredActor;
    var c, n := Clean(e), Normalize(e);
    CleanIdempotent(e);
    UpperFixpoint("CHANGE");
    UpperFixpoint("SUCCESS");
    ActorFixpoint(c.actorId);
    assert Clean(n) == n;
  }

  lemma ActorFixpoint(actorId: string)
    ensures TrimUpper(InferredActor(actorId)) == InferredActor(actorId) != ""
  {
    hide Trim, TrimUpper, HasPrefix;
    UpperFixpoint("CI");
    UpperFixpoint("SYSTEM");
    UpperFixpoint("USER");
  }

  /** Every field but the hash, in normal form. */
  function Canonical(e: Event): Event {
    Normalize(e).(hash := "")
  }

  function DigestOf(digest: Digest, e: Event): string {
    digest(Canonical(e))
  }

  lemma CanonicalIgnoresHash(e: Event, hash: string)
    ensures Canonical(e.(hash := hash)) == Canonical(e)
    ensures Canonical(Normalize(e)) == Canonical(e)
  {
    hide Trim, TrimUpper, TrimLower, InferredActor;
    NormalizeIdempotent(e);
  }

  lemma HexFixpoint(h: string)
    requires Hex(h)
    ensures TrimLower(h) == h && Trim(h) == h && Lower(h) == h
  {
    TrimFixpoint(h);
    assert Lower(h) == h;
  }

  // ----- One chain -------------------------------------------------------------

  /** What the successor of a normalised event must name. */
  function Anchor(digest: Digest, e: Event): string {
    if e.hash != "" then e.hash else DigestOf(digest, e)
  }

  predicate Hashed(e: Event) {
    Normalize(e).hash != ""
  }

  function ExpectedPrev(digest: Digest, chain: seq<Event>): string {
    if chain == [] then "" else Anchor(digest, Normalize(chain[|chain| - 1]))
  }

  /** Whether an event may follow a chain: legacy only before hashing began, else linked and untampered. */
  predicate Follows(digest: Digest, chain: seq<Event>, raw: Event) {
    var e := Normalize(raw);
    if e.hash == "" then forall j :: 0 <= j < |chain| ==> !Hashed(chain[j])
    else e.prevHash == ExpectedPrev(digest, chain) && e.hash == DigestOf(digest, e)
  }

  predicate ChainValid(digest: Digest, chain: seq<Event>) {
    forall i :: 0 <= i < |chain| ==> Follows(digest, chain[..i], chain[i])
  }

  lemma ChainExtend(digest: Digest, chain: seq<Event>, e: Event)
    ensures ChainValid(digest, chain + [e]) <==> ChainValid(digest, chain) && Follows(digest, chain, e)
  {
    hide Follows;
    var longer := chain + [e];
    assert longer[..|chain|] == chain;
    assert forall i :: 0 <= i < |chain| ==> longer[..i] == chain[..i] && longer[i] == chain[i];
    if ChainValid(digest, longer) {
      forall i | 0 <= i < |chain|
        ensures Follows(digest, chain[..i], chain[i])
      {
        assert Follows(digest, longer[..i], longer[i]);
      }
      assert Follows(digest, longer[..|chain|], longer[|chain|]);
    }
  }

  lemma ChainPrefix(digest: Digest, chain: seq<Event>, n: nat)
    requires ChainValid(digest, chain) && n <= |chain|
    ensures ChainValid(digest, chain[..n])
  {
    hide Follows;
    forall i | 0 <= i < n
      ensures Follows(digest, chain[..n][..i], chain[..n][i])
    {
      assert chain[..n][..i] == chain[..i];
    }
  }

  // ----- One log, many chains --------------------------------------------------

  function Organization(e: Event): string {
    Trim(e.organization)
  }

  /** The events of one organisation, in log order. */
  function Of(org: string, log: seq<Event>): seq<Event> {
    if log == [] then []
    else
      var n := |log| - 1;
      if Organization(log[n]) == org then Of(org, log[..n]) + [log[n]] else Of(org, log[..n])
  }

  lemma OfExtend(org: string, log: seq<Event>, e: Event)
    ensures Of(org, log + [e]) == if Organization(e) == org then Of(org, log) + [e] else Of(org, log)
  {
    hide Organization;
    assert (log + [e])[..|log|] == log;
  }

  ghost predicate LogValid(digest: Digest, log: seq<Event>) {
    forall org: string :: ChainValid(digest, Of(org, log))
  }

  lemma LogExtend(digest: Digest, log: seq<Event>, e: Event)
    ensures LogValid(digest, log + [e]) <==> LogValid(digest, log) && Follows(digest, Of(Organization(e), log), e)
  {
    hide ChainValid, Follows, Organization, Of;
    var org, longer := Organization(e), log + [e];
    OfExtend(org, log, e);
    ChainExtend(digest, Of(org, log), e);
    if LogValid(digest, longer) {
      assert ChainValid(digest, Of(org, longer));
      forall other: string
        ensures ChainValid(digest, Of(other, log))
      {
        OfExtend(other, log, e);
        assert ChainValid(digest, Of(other, longer));
      }
    }
    if LogValid(digest, log) && Follows(digest, Of(org, log), e) {
      forall other: string
        ensures ChainValid(digest, Of(other, longer))
      {
        OfExtend(other, log, e);
        assert ChainValid(digest, Of(other, log));
      }
    }
  }

  lemma {:induction false} LogPrefix(digest: Digest, log: seq<Event>, n: nat)
    requires LogValid(digest, log) && n <= |log|
    ensures LogValid(digest, log[..n])
    decreases |log|
  {
    hide LogValid;
    if n == |log| {
      assert log[..n] == log;
    } else {
      var m := |log| - 1;
      assert log == log[..m] + [log[m]];
      LogExtend(digest, log[..m], log[m]);
      LogPrefix(digest, log[..m], n);
      assert log[..m][..n] == log[..n];
    }
  }

  ghost predicate SomeHashed(chain: seq<Event>) {
    exists j :: 0 <= j < |chain| && Hashed(chain[j])
  }

  ghost predicate TracksLast(last: map<string, Event>, log: seq<Event>) {
    && (forall org: string :: org in last <==> Of(org, log) != [])
    && (forall org: string :: org in last ==>
          Of(org, log) != [] && last[org] == Normalize(Of(org, log)[|Of(org, log)| - 1]))
  }

  ghost predicate TracksHashed(hashed: set<string>, log: seq<Event>) {
    forall org: string :: org in hashed <==> SomeHashed(Of(org, log))
  }

  /** The two maps of the verifier: the last event of each chain, and the chains already hashed. */
  ghost predicate Tracks(last: map<string, Event>, hashed: set<string>, log: seq<Event>) {
    TracksLast(last, log) && TracksHashed(hashed, log)
  }

  lemma SomeHashedExtend(chain: seq<Event>, e: Event)
    ensures SomeHashed(chain + [e]) <==> SomeHashed(chain) || Hashed(e)
  {
    hide Hashed;
    var longer := chain + [e];
    if SomeHashed(chain) {
      var j :| 0 <= j < |chain| && Hashed(chain[j]);
      assert Hashed(longer[j]);
    }
    if Hashed(e) {
      assert Hashed(longer[|chain|]);
    }
  }

  lemma LastExtend(last: map<string, Event>, log: seq<Event>, e: Event)
    requires TracksLast(last, log)
    ensures TracksLast(last[Organization(e) := Normalize(e)], log + [e])
  {
    hide Organization, Normalize, Of;
    forall org: string
      ensures Of(org, log + [e]) == if Organization(e) == org then Of(org, log) + [e] else Of(org, log)
    {
      OfExtend(org, log, e);
    }
  }

  lemma HashedExtend(hashed: set<string>, log: seq<Event>, e: Event)
    requires TracksHashed(hashed, log)
    ensures TracksHashed(if Hashed(e) then hashed + {Organization(e)} else hashed, log + [e])
  {
    hide Hashed, Organization, Of, SomeHashed;
    var longer, more := log + [e], if Hashed(e) then hashed + {Organization(e)} else hashed;
    forall org: string
      ensures org in more <==> SomeHashed(Of(org, longer))
    {
      OfExtend(org, log, e);
      SomeHashedExtend(Of(org, log), e);
    }
  }

  lemma TracksExtend(last: map<string, Event>, hashed: set<string>, log: seq<Event>, e: Event)
    requires Tracks(last, hashed, log)
    ensures Tracks(last[Organization(e) := Normalize(e)], if Hashed(e) then hashed + {Organization(e)} else hashed, log + [e])
  {
    hide TracksLast, TracksHashed;
    LastExtend(last, log, e);
    HashedExtend(hashed, log, e);
  }

  lemma OrganizationIsNormal(e: Event)
    ensures Normalize(e).organization == Organization(e)
  {
    hide Trim, TrimUpper, TrimLower, InferredActor;
  }

  /** Accepts the interleaved log exactly when every organisation's own chain is valid. */
  method Verify(digest: Digest, events: seq<Event>) returns (ok: bool)
    ensures ok <==> LogValid(digest, events)
  {
    hide LogValid, Normalize, Of, Organization, ChainValid, SomeHashed, Tracks;
    var last: map<string, Event> := map[];
    var hashed: set<string> := {};
    EmptyLog(digest);
    assert events[..0] == [];
    for index := 0 to |events|
      invariant LogValid(digest, events[..index])
      invariant Tracks(last, hashed, events[..index])
    {
      var event := Normalize(events[index]);
      ghost var seen := events[..index];
      OrganizationIsNormal(events[index]);
      Lookup(last, hashed, seen, event.organization);
      ghost var chain := Of(event.organization, seen);
      assert events[..index + 1] == seen + [events[index]];
      LogExtend(digest, seen, events[index]);
      TracksExtend(last, hashed, seen, events[index]);
      if event.hash == "" {
        if event.organization in hashed {
          LegacyRefused(digest, chain, events[index]);
          Refuse(digest, events, index);
          return false;
        }
        LegacyAccepted(digest, chain, events[index]);
        last := last[event.organization := event];
      } else {
        hashed := hashed + {event.organization};
        var expectedPrev := "";
        if event.organization in last {
          var previous := last[event.organization];
          expectedPrev := if previous.hash != "" then previous.hash else DigestOf(digest, previous);
        }
        if event.prevHash != expectedPrev {
          Refuse(digest, events, index);
          return false;
        }
        if event.hash != DigestOf(digest, event) {
          Refuse(digest, events, index);
          return false;
        }
        last := last[event.organization := event];
      }
    }
    assert events[..|events|] == events;
    ok := true;
  }

  lemma EmptyLog(digest: Digest)
    ensures LogValid(digest, []) && Tracks(map[], {}, [])
  {
  }

  lemma Lookup(last: map<string, Event>, hashed: set<string>, log: seq<Event>, org: string)
    requires Tracks(last, hashed, log)
    ensures org in last <==> Of(org, log) != []
    ensures org in last ==> last[org] == Normalize(Of(org, log)[|Of(org, log)| - 1])
    ensures org in hashed <==> SomeHashed(Of(org, log))
  {
    hide Of, Normalize, SomeHashed;
  }

  lemma LegacyRefused(digest: Digest, chain: seq<Event>, e: Event)
    requires SomeHashed(chain) && Normalize(e).hash == ""
    ensures !Follows(digest, chain, e)
  {
    hide Normalize;
  }

  lemma LegacyAccepted(digest: Digest, chain: seq<Event>, e: Event)
    requires !SomeHashed(chain) && Normalize(e).hash == ""
    ensures Follows(digest, chain, e)
  {
    hide Normalize;
  }

  lemma Refuse(digest: Digest, log: seq<Event>, n: nat)
    requires n < |log| && !LogValid(digest, log[..n + 1])
    ensures !LogValid(digest, log)
  {
    hide LogValid;
    if LogValid(digest, log) {
      LogPrefix(digest, log, n + 1);
    }
  }

  // ----- Appending -------------------------------------------------------------

  function Link(digest: Digest, event: Event, previous: Option<Event>): Event {
    var e := Normalize(event).(hash := "");
    var linked := e.(prevHash :=
      match previous
      case None => ""
      case Some(p) => if p.hash != "" then Lower(p.hash) else DigestOf(digest, p));
    linked.(hash := DigestOf(digest, linked))
  }

  /** A stored hash of white space only: not empty as stored, empty once normalised. */
  predicate BlankHash(e: Event) {
    e.hash != "" && Blank(e.hash)
  }

  function LastOf(chain: seq<Event>): Option<Event> {
    if chain == [] then None else Some(chain[|chain| - 1])
  }

  lemma LowerThenTrim(s: string)
    ensures TrimLower(Lower(s)) == TrimLower(s)
  {
    var from, to := TrimSlice(s);
    var l := Lower(s);
    assert l[from..to] == Lower(s[from..to]);
    TrimFixpoint(s);
    CaseKeepsTrimmed(Trim(s));
    TrimUnique(l, from, to);
    LowerIdempotent(Trim(s));
  }

  lemma NormalHash(e: Event)
    ensures Normalize(e).hash == TrimLower(e.hash) && Normalize(e).prevHash == TrimLower(e.prevHash)
    ensures Normalize(e).hash == "" <==> Blank(e.hash)
  {
    hide TrimUpper, InferredActor;
    TrimEmptyIffBlank(e.hash);
    assert |Lower(Trim(e.hash))| == |Trim(e.hash)|;
  }

  /** The linked event in normal form: its chain, its anchor and its own digest. */
  lemma LinkedShape(digest: Digest, event: Event, previous: Option<Event>)
    requires HexDigest(digest)
    ensures var linked := Link(digest, event, previous);
            && Organization(linked) == Organization(event)
            && Hashed(linked) && !Blank(linked.hash)
            && Normalize(linked).hash == DigestOf(digest, linked) == DigestOf(digest, Normalize(linked))
            && Normalize(linked).prevHash == (
                 match previous
                 case None => ""
                 case Some(p) => if p.hash != "" then TrimLower(p.hash) else DigestOf(digest, p))
  {
    hide Normalize, TrimUpper, InferredActor, Trim, Canonical, Hex;
    var linked := Link(digest, event, previous);
    var e := Normalize(event).(hash := "");
    var before := e.(prevHash := linked.prevHash);
    CanonicalIgnoresHash(before, linked.hash);
    assert before.(hash := linked.hash) == linked;
    NormalHash(linked);
    OrganizationIsNormal(event);
    TrimFixpoint(event.organization);
    assert Hex(linked.hash);
    HexFixpoint(linked.hash);
    HexNotBlank(linked.hash);
    CanonicalIgnoresHash(linked, "");
    match previous {
      case None => EmptyFixpoint();
      case Some(p) =>
        if p.hash != "" {
          LowerThenTrim(p.hash);
        } else {
          assert Hex(DigestOf(digest, p));
          HexFixpoint(DigestOf(digest, p));
        }
    }
  }

  lemma HexNotBlank(h: string)
    requires Hex(h)
    ensures !Blank(h)
  {
    assert !IsSpace(h[0]);
  }

  lemma EmptyFixpoint()
    ensures TrimLower("") == ""
  {
  }

  /**
   Linking an event after the last event of its chain extends a valid log, with one exact
   exception: a predecessor whose stored hash is made of white space only.
   */
  lemma LinkExtendsExactly(digest: Digest, log: seq<Event>, event: Event)
    requires HexDigest(digest) && LogValid(digest, log)
    ensures var previous := LastOf(Of(Organization(event), log));
            LogValid(digest, log + [Link(digest, event, previous)])
            <==> !(previous.Some? && BlankHash(previous.value))
  {
    hide Normalize, LogValid, Of, Organization, TrimLower, Hex, Canonical, Link;
    var chain := Of(Organization(event), log);
    var previous := LastOf(chain);
    var linked := Link(digest, event, previous);
    LinkedShape(digest, event, previous);
    LogExtend(digest, log, linked);
    if previous.Some? {
      NormalHash(previous.value);
      CanonicalIgnoresHash(previous.value, "");
      assert Hex(DigestOf(digest, previous.value));
      assert DigestOf(digest, Normalize(previous.value)) == DigestOf(digest, previous.value);
      HexNotEmpty(DigestOf(digest, previous.value));
    }
  }

  lemma HexNotEmpty(h: string)
    requires Hex(h)
    ensures h != ""
  {
  }

  // ----- The store -------------------------------------------------------------

  /** The store looks its predecessor up by the identifier as stored, not as normalised. */
  function LatestStored(log: seq<Event>, organization: string): Option<Event> {
    if log == [] then None
    else
      var n := |log| - 1;
      if log[n].organization == organization then Some(log[n]) else LatestStored(log[..n], organization)
  }

  /** What the store knows of a change when it records an event about it. */
  datatype Change = Change(id: string, organization: string, version: int, artifact: string)

  predicate About(change: Change, event: Event) {
    change.id == event.changeId && change.organization == event.organization
  }

  function FirstAbout(changes: seq<Change>, event: Event): Option<Change> {
    if changes == [] then None
    else if About(changes[0], event) then Some(changes[0])
    else FirstAbout(changes[1..], event)
  }

  /** An identifier and a time where none was given; an unset time is 0. */
  function Dated(event: Event, id: string, now: int): Event {
    event.(id := OrElse(event.id, id), createdAt := if event.createdAt == 0 then now else event.createdAt)
  }

  /** An event about a change names it as its resource and takes what it does not say from that change. */
  function Enriched(changes: seq<Change>, event: Event): Event {
    if event.changeId == "" then event
    else
      var e := event.(resourceType := "CHANGE", resourceId := event.changeId);
      match FirstAbout(changes, event)
      case None => e
      case Some(change) =>
        e.(versionAfter := if e.versionAfter == 0 then change.version else e.versionAfter,
           versionBefore := if e.versionBefore == 0 && change.version > 1 then change.version - 1 else e.versionBefore,
           requestDigest := OrElse(e.requestDigest, change.artifact))
  }

  function Prepared(changes: seq<Change>, events: seq<Event>, ids: seq<string>, now: int): (prepared: seq<Event>)
    requires |ids| == |events|
    ensures |prepared| == |events|
    ensures forall i :: 0 <= i < |events| ==> prepared[i] == Enriched(changes, Dated(events[i], ids[i], now))
  {
    seq(|events|, i requires 0 <= i < |events| => Enriched(changes, Dated(events[i], ids[i], now)))
  }

  class AuditStore {
    const digest: Digest
    var changes: seq<Change>
    var audits: seq<Event>

    constructor (digest: Digest, changes: seq<Change>, audits: seq<Event>)
      ensures this.digest == digest && this.changes == changes && this.audits == audits
    {
      this.digest := digest;
      this.changes := changes;
      this.audits := audits;
    }

    method Enrich(event: Event) returns (enriched: Event)
      ensures enriched == Enriched(changes, event)
    {
      enriched := event;
      if event.changeId != "" {
        enriched := event.(resourceType := "CHANGE", resourceId := event.changeId);
        assert changes[0..] == changes;
        for index := 0 to |changes|
          invariant FirstAbout(changes, event) == FirstAbout(changes[index..], event)
          invariant enriched == event.(resourceType := "CHANGE", resourceId := event.changeId)
        {
          var change := changes[index];
          assert changes[index..][0] == change && changes[index..][1..] == changes[index + 1..];
          if change.id != event.changeId || change.organization != event.organization {
            continue;
          }
          if enriched.versionAfter == 0 {
            enriched := enriched.(versionAfter := change.version);
          }
          if enriched.versionBefore == 0 && change.version > 1 {
            enriched := enriched.(versionBefore := change.version - 1);
          }
          if enriched.requestDigest == "" {
            enriched := enriched.(requestDigest := change.artifact);
          }
          break;
        }
      }
    }

    method Latest(organization: string) returns (previous: Option<Event>)
      ensures previous == LatestStored(audits, organization)
    {
      previous := None;
      var index := |audits|;
      assert audits[..index] == audits;
      while index > 0 && previous.None?
        invariant 0 <= index <= |audits|
        invariant LatestStored(audits, organization) == if previous.Some? then previous else LatestStored(audits[..index], organization)
      {
        index := index - 1;
        assert audits[..index + 1][..index] == audits[..index];
        if audits[index].organization == organization {
          previous := Some(audits[index]);
        }
      }
      assert audits[..0] == [];
    }

    /** `ids` are the identifiers generated for the events that come without one. */
    method Append(events: seq<Event>, ids: seq<string>, now: int)
      requires |ids| == |events|
      modifies this`audits
      ensures audits == AppendedAll(digest, old(audits), Prepared(changes, events, ids, now))
    {
      hide Link, Enriched, LatestStored;
      ghost var prepared := Prepared(changes, events, ids, now);
      assert prepared[0..] == prepared;
      for e := 0 to |events|
        invariant AppendedAll(digest, old(audits), prepared) == AppendedAll(digest, audits, prepared[e..])
      {
        var event := events[e];
        if event.id == "" {
          event := event.(id := ids[e]);
        }
        if event.createdAt == 0 {
          event := event.(createdAt := now);
        }
        assert event == Dated(events[e], ids[e], now);
        event := Enrich(event);
        var previous := Latest(event.organization);
        assert prepared[e..][0] == event && prepared[e..][1..] == prepared[e + 1..];
        audits := audits + [Link(digest, event, previous)];
      }
    }
  }

  lemma EnrichedStays(changes: seq<Change>, event: Event, id: string, now: int)
    ensures Enriched(changes, Dated(event, id, now)).organization == event.organization
  {
    hide FirstAbout;
  }

  function Appended(digest: Digest, log: seq<Event>, event: Event): seq<Event> {
    log + [Link(digest, event, LatestStored(log, event.organization))]
  }

  function AppendedAll(digest: Digest, log: seq<Event>, events: seq<Event>): seq<Event>
    decreases |events|
  {
    if events == [] then log else AppendedAll(digest, Appended(digest, log, events[0]), events[1..])
  }

  /** Organisations are stored trimmed, and no stored hash is white space only. */
  ghost predicate Tidy(log: seq<Event>) {
    forall i :: 0 <= i < |log| ==> Trimmed(log[i].organization) && !BlankHash(log[i])
  }

  lemma {:induction false} LatestIsLast(log: seq<Event>, organization: string)
    requires Tidy(log)
    ensures LatestStored(log, organization) == if Trimmed(organization) then LastOf(Of(organization, log)) else None
    decreases |log|
  {
    hide Trim, BlankHash;
    if log != [] {
      var n := |log| - 1;
      LatestIsLast(log[..n], organization);
      TrimFixpoint(log[n].organization);
      TrimFixpoint(organization);
    }
  }

  /**
   On a tidy, valid log an append keeps the log valid exactly when the new organisation
   identifier is trimmed already or opens a chain of its own.
   */
  lemma AppendKeepsExactly(digest: Digest, log: seq<Event>, event: Event)
    requires HexDigest(digest) && LogValid(digest, log) && Tidy(log)
    ensures LogValid(digest, Appended(digest, log, event))
            <==> Trimmed(event.organization) || Of(Organization(event), log) == []
    ensures Tidy(Appended(digest, log, event))
  {
    hide Normalize, LogValid, Of, TrimLower, Hex, Canonical, Link, Trim, Blank;
    var chain := Of(Organization(event), log);
    var previous := LatestStored(log, event.organization);
    var linked := Link(digest, event, previous);
    LatestIsLast(log, event.organization);
    LinkedShape(digest, event, previous);
    TrimFixpoint(event.organization);
    LinkedOrganization(digest, event, previous);
    LogExtend(digest, log, linked);
    if Trimmed(event.organization) || chain == [] {
      assert previous == LastOf(chain);
      LinkExtendsExactly(digest, log, event);
      if chain != [] {
        LastIsStored(log, Organization(event));
      }
    } else {
      var last := chain[|chain| - 1];
      AnchorNotEmpty(digest, last);
    }
  }

  lemma LinkedOrganization(digest: Digest, event: Event, previous: Option<Event>)
    ensures Link(digest, event, previous).organization == Trim(event.organization)
  {
    hide Trim, TrimUpper, TrimLower, InferredActor;
  }

  lemma AnchorNotEmpty(digest: Digest, e: Event)
    requires HexDigest(digest)
    ensures Anchor(digest, Normalize(e)) != ""
  {
    hide Normalize, Canonical;
    assert Hex(DigestOf(digest, Normalize(e)));
  }

  lemma {:induction false} LastIsStored(log: seq<Event>, org: string)
    requires Of(org, log) != []
    ensures exists i :: 0 <= i < |log| && log[i] == Of(org, log)[|Of(org, log)| - 1]
    decreases |log|
  {
    hide Organization;
    var n := |log| - 1;
    if Organization(log[n]) == org {
      assert log[n] == Of(org, log)[|Of(org, log)| - 1];
    } else {
      LastIsStored(log[..n], org);
      var i :| 0 <= i < n && log[..n][i] == Of(org, log[..n])[|Of(org, log[..n])| - 1];
      assert log[i] == log[..n][i];
    }
  }

  /** However many events are appended, to however many chains, the log still verifies. */
  lemma {:induction false} AppendsStayValid(digest: Digest, log: seq<Event>, events: seq<Event>)
    requires HexDigest(digest) && LogValid(digest, log) && Tidy(log)
    requires forall i :: 0 <= i < |events| ==> Trimmed(events[i].organization)
    ensures LogValid(digest, AppendedAll(digest, log, events)) && Tidy(AppendedAll(digest, log, events))
    ensures log <= AppendedAll(digest, log, events)
    decreases |events|
  {
    hide LogValid, Tidy, Link, LatestStored;
    if events != [] {
      AppendKeepsExactly(digest, log, events[0]);
      AppendsStayValid(digest, Appended(digest, log, events[0]), events[1..]);
    }
  }

  /** The store's own appends, with everything it fills in first, leave its log valid. */
  lemma StoreStaysValid(digest: Digest, log: seq<Event>, changes: seq<Change>, events: seq<Event>, ids: seq<string>, now: int)
    requires HexDigest(digest) && LogValid(digest, log) && Tidy(log) && |ids| == |events|
    requires forall i :: 0 <= i < |events| ==> Trimmed(events[i].organization)
    ensures LogValid(digest, AppendedAll(digest, log, Prepared(changes, events, ids, now)))
  {
    hide LogValid, Tidy, Enriched, Dated, AppendedAll;
    forall i | 0 <= i < |events|
      ensures Prepared(changes, events, ids, now)[i].organization == events[i].organization
    {
      EnrichedStays(changes, events[i], ids[i], now);
    }
    AppendsStayValid(digest, log, Prepared(changes, events, ids, now));
  }

  /** Events stored before hashing began are a valid log, whatever else they contain. */
  lemma {:induction false} LegacyLogIsValid(digest: Digest, log: seq<Event>)
    requires forall i :: 0 <= i < |log| ==> !Hashed(log[i])
    ensures LogValid(digest, log)
    ensures forall org: string :: !SomeHashed(Of(org, log))
    decreases |log|
  {
    hide Normalize, LogValid, Of;
    if log == [] {
      EmptyLog(digest);
      forall org: string
        ensures !SomeHashed(Of(org, log))
      {
        OfNothing(org);
      }
    } else {
      var n := |log| - 1;
      assert log == log[..n] + [log[n]];
      LegacyLogIsValid(digest, log[..n]);
      LogExtend(digest, log[..n], log[n]);
      LegacyAccepted(digest, Of(Organization(log[n]), log[..n]), log[n]);
      forall org: string
        ensures !SomeHashed(Of(org, log))
      {
        OfExtend(org, log[..n], log[n]);
        SomeHashedExtend(Of(org, log[..n]), log[n]);
      }
    }
  }

  lemma OfNothing(org: string)
    ensures Of(org, []) == []
  {
  }

  // ----- Where linking and appending fail --------------------------------------

  /** An event with nothing in it but its organisation and a stored hash. */
  function Bare(organization: string, hash: string): Event {
    Event(organization, "", "", "", "", "", "", "", "", "", "", 0, 0, "", "", "", "", "", "", "", 0, "", hash)
  }

  lemma BareIsLegacy(digest: Digest, organization: string, hash: string)
    requires Blank(hash)
    ensures LogValid(digest, [Bare(organization, hash)])
    ensures Of(Organization(Bare(organization, hash)), [Bare(organization, hash)]) == [Bare(organization, hash)]
  {
    hide Normalize, LogValid;
    NormalHash(Bare(organization, hash));
    LegacyLogIsValid(digest, [Bare(organization, hash)]);
    assert [Bare(organization, hash)][..0] == [];
  }

  /** A valid log whose one event has a space for a hash: what is linked after it no longer verifies. */
  lemma BlankHashBreaksLink(digest: Digest)
    requires HexDigest(digest)
    ensures var log := [Bare("org", " ")];
            && LogValid(digest, log) && LastOf(Of(Organization(Bare("org", "")), log)) == Some(log[0])
            && !LogValid(digest, log + [Link(digest, Bare("org", ""), Some(log[0]))])
  {
    hide Normalize, LogValid, Link, Trim, Of;
    var log := [Bare("org", " ")];
    BareIsLegacy(digest, "org", " ");
    LinkExtendsExactly(digest, log, Bare("org", ""));
    assert BlankHash(log[0]);
  }

  /** A valid and tidy log: an append under the same organisation with spaces around it breaks it. */
  lemma SpacedOrganizationBreaksAppend(digest: Digest)
    requires HexDigest(digest)
    ensures var log := [Bare("org", "")];
            LogValid(digest, log) && Tidy(log) && !LogValid(digest, Appended(digest, log, Bare(" org ", "")))
  {
    hide Normalize, LogValid, Link, LatestStored, Of;
    var log := [Bare("org", "")];
    BareIsLegacy(digest, "org", "");
    assert " org "[1..4] == "org";
    TrimUnique(" org ", 1, 4);
    TrimFixpoint("org");
    AppendKeepsExactly(digest, log, Bare(" org ", ""));
  }

  // ----- Tamper evidence -------------------------------------------------------

  ghost predicate FullyHashed(chain: seq<Event>) {
    forall i :: 0 <= i < |chain| ==> Hashed(chain[i])
  }

  lemma LastLink(digest: Digest, chain: seq<Event>)
    requires ChainValid(digest, chain) && FullyHashed(chain) && chain != []
    ensures var n := |chain| - 1;
            && Normalize(chain[n]).hash == digest(Canonical(chain[n]))
            && Canonical(chain[n]).prevHash == (if n == 0 then "" else Normalize(chain[n - 1]).hash)
            && ChainValid(digest, chain[..n]) && FullyHashed(chain[..n])
  {
    hide Normalize;
    var n := |chain| - 1;
    assert Follows(digest, chain[..n], chain[n]);
    CanonicalIgnoresHash(chain[n], "");
    ChainPrefix(digest, chain, n);
    assert n > 0 ==> chain[..n][n - 1] == chain[n - 1];
  }

  /** The last hash of a fully hashed chain fixes its length and every canonical payload in it. */
  lemma {:induction false} LastHashFixesChain(digest: Digest, a: seq<Event>, b: seq<Event>)
    requires Injective(digest)
    requires ChainValid(digest, a) && FullyHashed(a) && ChainValid(digest, b) && FullyHashed(b)
    requires a != [] && b != [] && Normalize(a[|a| - 1]).hash == Normalize(b[|b| - 1]).hash
    ensures |a| == |b| && forall i :: 0 <= i < |a| ==> Canonical(a[i]) == Canonical(b[i])
    decreases |a|
  {
    hide ChainValid, Normalize, Canonical;
    var m, n := |a| - 1, |b| - 1;
    LastLink(digest, a);
    LastLink(digest, b);
    assert Canonical(a[m]) == Canonical(b[n]);
    assert m > 0 ==> Hashed(a[m - 1]);
    assert n > 0 ==> Hashed(b[n - 1]);
    if m > 0 {
      assert a[..m][m - 1] == a[m - 1] && b[..n][n - 1] == b[n - 1];
      LastHashFixesChain(digest, a[..m], b[..n]);
      assert forall i :: 0 <= i < m ==> a[..m][i] == a[i] && b[..n][i] == b[i];
    }
  }
}
