/**
 What the gateway's audit file guarantees: no record can be altered unseen, what is appended is
 kept, and a page shows the published fields of the records it found in order and nothing else.
 */
module GatewayAuditLaws {
  import opened Sequences
  import opened Wrappers
  import opened Text
  import opened GatewayAudit

  // ----- Tampering -------------------------------------------------------------

  ghost predicate Injective(cfg: Config) {
    forall a, b :: cfg.sign(a) == cfg.sign(b) ==> a == b
  }

  /** What holds of every record of a chained file: its number, its link and the signature of all the rest. */
  lemma ChainedExactly(cfg: Config, rs: seq<Record>)
    ensures Chained(cfg, rs)
       <==> forall i :: 0 <= i < |rs| ==>
              && rs[i].sequence == i + 1 && rs[i].prevHash == (if i == 0 then "" else rs[i - 1].hash)
              && rs[i].hash == cfg.sign(rs[i].(hash := ""))
  {
    forall i | 0 <= i < |rs|
      ensures Linked(cfg, rs[..i], rs[i])
         <==> rs[i].sequence == i + 1 && rs[i].prevHash == (if i == 0 then "" else rs[i - 1].hash) && rs[i].hash == cfg.sign(rs[i].(hash := ""))
    {
      assert i > 0 ==> rs[..i][i - 1] == rs[i - 1];
    }
  }

  lemma SameSigned(cfg: Config, a: Record, b: Record)
    requires Injective(cfg) && a.hash == cfg.sign(a.(hash := "")) && b.hash == cfg.sign(b.(hash := "")) && a.hash == b.hash
    ensures a == b
  {
    assert a.(hash := "") == b.(hash := "");
    assert a == a.(hash := "").(hash := a.hash) && b == b.(hash := "").(hash := b.hash);
  }

  /** The last hash fixes the whole file: two chains that end in the same hash are the same records. */
  lemma {:induction false} LastHashFixesFile(cfg: Config, a: seq<Record>, b: seq<Record>)
    requires Injective(cfg) && Chained(cfg, a) && Chained(cfg, b) && a != [] && b != [] && LastHash(a) == LastHash(b)
    ensures a == b
    decreases |a|
  {
    hide Chained, Injective;
    var m, n := |a| - 1, |b| - 1;
    ChainedExactly(cfg, a);
    ChainedExactly(cfg, b);
    SameSigned(cfg, a[m], b[n]);
    assert a == a[..m] + [a[m]] && b == b[..n] + [b[n]];
    ChainedExtend(cfg, a[..m], a[m]);
    ChainedExtend(cfg, b[..n], b[n]);
    if m > 0 {
      assert LastHash(a[..m]) == a[m - 1].hash && LastHash(b[..n]) == b[n - 1].hash;
      LastHashFixesFile(cfg, a[..m], b[..n]);
    }
  }

  /** A record altered in place is noticed at the next start: unless it is the last one and signed anew. */
  lemma TamperingNoticed(cfg: Config, rs: seq<Record>, i: nat, altered: Record)
    requires cfg.Codec() && Injective(cfg) && Chained(cfg, rs) && i < |rs| && altered != rs[i]
    requires altered.hash == rs[i].hash || i + 1 < |rs|
    ensures !FileValid(cfg, Render(cfg, rs[i := altered]))
  {
    hide Chained, Injective, FileValid, Render, Decoded, Lines, Fits;
    var other := rs[i := altered];
    ChainedExactly(cfg, rs);
    ChainedExactly(cfg, other);
    RenderedValidExactly(cfg, other);
    if Chained(cfg, other) {
      assert other[i] == altered;
      assert i + 1 < |rs| ==> other[i + 1] == rs[i + 1];
      SameSigned(cfg, altered, rs[i]);
    }
  }

  /** A record missing from the middle, or at the beginning, is noticed as well. */
  lemma RemovalNoticed(cfg: Config, rs: seq<Record>, i: nat)
    requires cfg.Codec() && Chained(cfg, rs) && i + 1 < |rs|
    ensures !FileValid(cfg, Render(cfg, rs[..i] + rs[i + 1..]))
  {
    hide Chained, FileValid, Render, Decoded, Lines, Fits;
    var other := rs[..i] + rs[i + 1..];
    ChainedExactly(cfg, rs);
    ChainedExactly(cfg, other);
    RenderedValidExactly(cfg, other);
    assert other[i] == rs[i + 1];
  }

  // ----- Lines -----------------------------------------------------------------

  function Joined(pieces: seq<string>): string
    requires pieces != []
  {
    if |pieces| == 1 then pieces[0] else pieces[0] + "\n" + Joined(pieces[1..])
  }

  /** Splitting a text takes out its newlines and nothing else. */
  lemma {:induction false} SplitExactly(s: string)
    ensures Joined(Split(s)) == s && forall i :: 0 <= i < |Split(s)| ==> '\n' !in Split(s)[i]
    decreases |s|
  {
    var k := IndexNewline(s);
    if k < |s| {
      SplitExactly(s[k + 1..]);
      var rest := Split(s[k + 1..]);
      assert Split(s) == [s[..k]] + rest && ([s[..k]] + rest)[1..] == rest;
      assert s == s[..k] + "\n" + s[k + 1..];
    }
  }

  /** A line without the carriage return it may end in. */
  function LineText(line: string): string {
    if HasSuffix(line, "\r") then line[..|line| - 1] else line
  }

  /** Where the lines stand that are not blank. */
  function RecordsAt(lines: seq<string>): seq<nat> {
    if lines == [] then []
    else
      var n := |lines| - 1;
      RecordsAt(lines[..n]) + if Blank(lines[n]) then [] else [n]
  }

  lemma {:induction false} RecordsAtAre(lines: seq<string>)
    ensures Ascending(RecordsAt(lines), |lines|)
    ensures forall i :: 0 <= i < |lines| ==> (i in RecordsAt(lines) <==> !Blank(lines[i]))
    decreases |lines|
  {
    hide Blank, Ascending;
    if lines == [] {
      assert Ascending([], 0) by { NoPlaces(); }
    } else {
      var n := |lines| - 1;
      var before := RecordsAt(lines[..n]);
      RecordsAtAre(lines[..n]);
      AscendingGrows(before, n);
      assert RecordsAt(lines) == if !Blank(lines[n]) then before + [n] else before;
      forall i | 0 <= i < |lines|
        ensures i in RecordsAt(lines) <==> !Blank(lines[i])
      {
        if i < n {
          assert lines[..n][i] == lines[i];
        }
      }
    }
  }

  lemma LineDecoded(line: string)
    ensures DropCR(line) == LineText(line) && (Trim(DropCR(line)) == "" <==> Blank(line))
  {
    TrimEmptyIffBlank(DropCR(line));
    if HasSuffix(line, "\r") {
      assert line[|line| - 1] == '\r';
    }
    if line != "" && line[|line| - 1] == '\r' {
      assert line[|line| - 1..] == "\r";
      assert forall i :: 0 <= i < |line| - 1 ==> DropCR(line)[i] == line[i];
    }
  }

  /** These records, decoded from the lines at these places. */
  predicate DecodedFrom(cfg: Config, lines: seq<string>, places: seq<nat>, rs: seq<Record>) {
    |rs| == |places| && forall k :: 0 <= k < |places| ==> places[k] < |lines| && cfg.decode(LineText(lines[places[k]])) == Some(rs[k])
  }

  lemma DecodedLonger(cfg: Config, lines: seq<string>, places: seq<nat>, rs: seq<Record>)
    requires lines != [] && DecodedFrom(cfg, lines[..|lines| - 1], places, rs)
    ensures DecodedFrom(cfg, lines, places, rs)
    ensures var r := cfg.decode(LineText(lines[|lines| - 1]));
            r.Some? ==> DecodedFrom(cfg, lines, places + [|lines| - 1], rs + [r.value])
  {
    hide LineText;
  }

  /** A file decodes exactly when each of its lines is blank or a record; its records are those of the lines that are not. */
  lemma {:induction false} DecodedExactly(cfg: Config, lines: seq<string>)
    ensures Decoded(cfg, lines).Some? <==> forall i :: 0 <= i < |lines| ==> Blank(lines[i]) || cfg.decode(LineText(lines[i])).Some?
    ensures Decoded(cfg, lines).Some? ==> DecodedFrom(cfg, lines, RecordsAt(lines), Decoded(cfg, lines).value)
    decreases |lines|
  {
    hide Blank, DropCR, LineText, Trim, DecodedFrom;
    if lines == [] {
      assert DecodedFrom(cfg, [], [], []) by { NothingDecoded(cfg); }
    } else {
      var n := |lines| - 1;
      DecodedExactly(cfg, lines[..n]);
      LineDecoded(lines[n]);
      assert forall i :: 0 <= i < n ==> lines[..n][i] == lines[i];
      if Decoded(cfg, lines[..n]).Some? {
        DecodedLonger(cfg, lines, RecordsAt(lines[..n]), Decoded(cfg, lines[..n]).value);
        assert RecordsAt(lines[..n]) + [] == RecordsAt(lines[..n]);
      }
    }
  }

  lemma NothingDecoded(cfg: Config)
    ensures DecodedFrom(cfg, [], [], [])
  {
  }

  // ----- The tail --------------------------------------------------------------

  /** What a reader of the tail accepts: every line a signed record, each but the first continuing the one before. */
  predicate TailHolds(cfg: Config, lines: seq<string>) {
    && (forall i :: 0 <= i < |lines| ==>
          cfg.decode(lines[i]).Some? && cfg.decode(lines[i]).value.hash == cfg.sign(cfg.decode(lines[i]).value.(hash := "")))
    && (forall i :: 0 < i < |lines| ==>
          && cfg.decode(lines[i]).value.sequence == cfg.decode(lines[i - 1]).value.sequence + 1
          && cfg.decode(lines[i]).value.prevHash == cfg.decode(lines[i - 1]).value.hash)
  }

  lemma {:induction false} ParsedExactly(cfg: Config, lines: seq<string>)
    ensures Parsed(cfg, lines).Some? <==> TailHolds(cfg, lines)
    ensures Parsed(cfg, lines).Some? ==>
              |Parsed(cfg, lines).value| == |lines|
              && forall i :: 0 <= i < |lines| ==> cfg.decode(lines[i]) == Some(Parsed(cfg, lines).value[i])
    decreases |lines|
  {
    hide TailHolds;
    if lines == [] {
      NothingHolds(cfg);
    } else {
      var n := |lines| - 1;
      ParsedExactly(cfg, lines[..n]);
      TailExtend(cfg, lines);
      assert forall i :: 0 <= i < n ==> lines[..n][i] == lines[i];
    }
  }

  lemma NothingHolds(cfg: Config)
    ensures TailHolds(cfg, [])
  {
  }

  lemma TailExtend(cfg: Config, lines: seq<string>)
    requires lines != []
    ensures var n := |lines| - 1;
            var r := cfg.decode(lines[n]);
            TailHolds(cfg, lines)
            <==> && TailHolds(cfg, lines[..n]) && r.Some? && r.value.hash == cfg.sign(r.value.(hash := ""))
                 && (n > 0 ==> cfg.decode(lines[n - 1]).Some? && r.value.sequence == cfg.decode(lines[n - 1]).value.sequence + 1
                               && r.value.prevHash == cfg.decode(lines[n - 1]).value.hash)
  {
    var n := |lines| - 1;
    assert forall i :: 0 <= i < n ==> lines[..n][i] == lines[i];
  }

  // ----- Appending -------------------------------------------------------------

  /** An appended record keeps what it was called with; the log adds its number, its link, its signature, and a time where none was given. */
  lemma StampedExactly(cfg: Config, r: Record, sequence: nat, prevHash: string, now: nat)
    ensures var t := Stamped(cfg, r, sequence, prevHash, now);
            && t.operation == r.operation && t.details == r.details && t.secrets == r.secrets
            && t.sequence == sequence + 1 && t.prevHash == prevHash && t.timestamp == (if r.timestamp == 0 then now else r.timestamp)
            && t.hash == cfg.sign(t.(hash := ""))
  {
    var t := Stamped(cfg, r, sequence, prevHash, now);
    assert t.(hash := "") == t.(hash := "").(hash := "");
  }

  // ----- Pages -----------------------------------------------------------------

  /** An operation that ends in this suffix is the beginning of a longer one, shown on request only. */
  predicate ToBeShown(r: Record, includeStarted: bool) {
    includeStarted || !(|r.operation| >= 8 && r.operation[|r.operation| - 8..] == "_started")
  }

  /** Where the records to be shown stand. */
  function ShownAt(rs: seq<Record>, includeStarted: bool): seq<nat> {
    if rs == [] then []
    else
      var n := |rs| - 1;
      ShownAt(rs[..n], includeStarted) + if ToBeShown(rs[n], includeStarted) then [n] else []
  }

  lemma {:induction false} ShownAtIs(rs: seq<Record>, includeStarted: bool)
    ensures Ascending(ShownAt(rs, includeStarted), |rs|)
    ensures forall i :: 0 <= i < |rs| ==> (i in ShownAt(rs, includeStarted) <==> ToBeShown(rs[i], includeStarted))
    decreases |rs|
  {
    hide ToBeShown, Ascending;
    if rs == [] {
      assert Ascending([], 0) by { NoPlaces(); }
    } else {
      var n := |rs| - 1;
      var before := ShownAt(rs[..n], includeStarted);
      ShownAtIs(rs[..n], includeStarted);
      AscendingGrows(before, n);
      assert ShownAt(rs, includeStarted) == if ToBeShown(rs[n], includeStarted) then before + [n] else before;
      forall i | 0 <= i < |rs|
        ensures i in ShownAt(rs, includeStarted) <==> ToBeShown(rs[i], includeStarted)
      {
        if i < n {
          assert rs[..n][i] == rs[i];
        }
      }
    }
  }

  /** What may be published of a record. */
  function PublicOf(r: Record): Event {
    Event(r.sequence, r.timestamp, r.operation, r.details)
  }

  /** What is published of the records at these places, in their order. */
  predicate PublishedAt(rs: seq<Record>, places: seq<nat>, shown: seq<Event>) {
    |shown| == |places| && forall k :: 0 <= k < |places| ==> places[k] < |rs| && shown[k] == PublicOf(rs[places[k]])
  }

  lemma PublishedLonger(rs: seq<Record>, places: seq<nat>, shown: seq<Event>)
    requires rs != [] && PublishedAt(rs[..|rs| - 1], places, shown)
    ensures PublishedAt(rs, places, shown)
    ensures PublishedAt(rs, places + [|rs| - 1], shown + [PublicOf(rs[|rs| - 1])])
  {
    hide PublicOf;
  }

  lemma {:induction false} ShownExactly(rs: seq<Record>, includeStarted: bool)
    ensures PublishedAt(rs, ShownAt(rs, includeStarted), Shown(rs, includeStarted))
    decreases |rs|
  {
    hide ToBeShown, Visible, PublishedAt;
    if rs == [] {
      NothingShown();
    } else {
      var n := |rs| - 1;
      ShownExactly(rs[..n], includeStarted);
      SuffixShown(rs[n], includeStarted);
      PublishedLonger(rs, ShownAt(rs[..n], includeStarted), Shown(rs[..n], includeStarted));
      assert ShownAt(rs[..n], includeStarted) + [] == ShownAt(rs[..n], includeStarted);
      assert Shown(rs[..n], includeStarted) + [] == Shown(rs[..n], includeStarted);
    }
  }

  lemma NothingShown()
    ensures PublishedAt([], [], [])
  {
  }

  lemma SuffixShown(r: Record, includeStarted: bool)
    ensures Visible(r, includeStarted) == ToBeShown(r, includeStarted)
  {
    assert |"_started"| == 8;
  }

  /** The last so many of what is shown, the newest first. */
  predicate NewestFirst(rs: seq<Record>, places: seq<nat>, limit: nat, page: seq<Event>) {
    && |page| == (if |places| < limit then |places| else limit)
    && forall k :: 0 <= k < |page| ==> places[|places| - 1 - k] < |rs| && page[k] == PublicOf(rs[places[|places| - 1 - k]])
  }

  lemma TurnedRound(rs: seq<Record>, places: seq<nat>, shown: seq<Event>, limit: nat, page: seq<Event>)
    requires PublishedAt(rs, places, shown)
    requires |page| == (if |shown| < limit then |shown| else limit) && forall i :: 0 <= i < |page| ==> page[i] == shown[|shown| - 1 - i]
    ensures NewestFirst(rs, places, limit, page)
  {
    hide PublicOf;
    forall k | 0 <= k < |page|
      ensures places[|places| - 1 - k] < |rs| && page[k] == PublicOf(rs[places[|places| - 1 - k]])
    {
      assert shown[|places| - 1 - k] == PublicOf(rs[places[|places| - 1 - k]]);
    }
  }

  /** A page is the newest of the records to be shown, newest first: number, time, operation and published details of each. */
  lemma PageExactly(rs: seq<Record>, includeStarted: bool, limit: nat)
    ensures NewestFirst(rs, ShownAt(rs, includeStarted), limit, Newest(rs, includeStarted, limit))
  {
    hide Newest, Shown, ShownAt, NewestFirst, PublishedAt;
    NewestIsLastShown(rs, includeStarted, limit);
    ShownExactly(rs, includeStarted);
    TurnedRound(rs, ShownAt(rs, includeStarted), Shown(rs, includeStarted), limit, Newest(rs, includeStarted, limit));
  }

  /** The same records but for what must never be published. */
  predicate SamePublicly(a: seq<Record>, b: seq<Record>) {
    |a| == |b| && forall i :: 0 <= i < |a| ==> b[i] == a[i].(secrets := b[i].secrets, prevHash := b[i].prevHash, hash := b[i].hash)
  }

  /** Digests, links and signatures never show in a page. */
  lemma {:induction false} SecretsStayInside(a: seq<Record>, b: seq<Record>, includeStarted: bool, limit: nat)
    requires SamePublicly(a, b)
    ensures Newest(a, includeStarted, limit) == Newest(b, includeStarted, limit)
    decreases |a|
  {
    hide ToBeShown;
    if a != [] && limit != 0 {
      var n := |a| - 1;
      SecretsStayInside(a[..n], b[..n], includeStarted, limit - 1);
      SecretsStayInside(a[..n], b[..n], includeStarted, limit);
    }
  }

  /** A page holds 20 events unless a number is asked for, and never more than 100; it is read from the last 4 MiB. */
  lemma LimitExactly(limit: int, content: string)
    ensures TailStart(content) == if |content| <= 4 * 1_048_576 then 0 else |content| - 4 * 1_048_576
    ensures 1 <= EffectiveLimit(limit) <= 100
    ensures 1 <= limit <= 100 ==> EffectiveLimit(limit) == limit
    ensures limit < 1 ==> EffectiveLimit(limit) == 20
    ensures limit > 100 ==> EffectiveLimit(limit) == 100
  {
  }
}
