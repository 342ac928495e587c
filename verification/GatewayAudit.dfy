/**
 The gateway's append-only audit file, byte by byte: one signed JSON record a line, each
 naming the signature of the one before. JSON and the keyed hash are parameters.
 */
module GatewayAudit {
  import opened Sequences
  import opened Wrappers
  import opened Text

  /** `details` stands for the published fields, `secrets` for the digests never published. */
  datatype Record = Record(sequence: nat, timestamp: nat, operation: string, details: string, secrets: string,
                           prevHash: string, hash: string)

  datatype Event = Event(sequence: nat, timestamp: nat, operation: string, details: string)

  /** The reader's line buffer must hold a line and its newline. */
  const LINE_BUFFER := 1_048_576
  const TAIL := 4_194_304

  datatype Config = Config(encode: Record -> string, decode: string -> Option<Record>, sign: Record -> string) {
    function Signature(r: Record): string {
      sign(r.(hash := ""))
    }

    /** Encoding yields one line of text, and decoding inverts it. */
    ghost predicate Codec() {
      forall r :: OneLine(encode(r)) && decode(encode(r)) == Some(r)
    }
  }

  predicate OneLine(line: string) {
    line != "" && Trimmed(line) && '\n' !in line
  }

  // ----- Lines -----------------------------------------------------------------

  function Split(s: string): (pieces: seq<string>)
    ensures |pieces| >= 1
    decreases |s|
  {
    var k := IndexNewline(s);
    if k == |s| then [s] else [s[..k]] + Split(s[k + 1..])
  }

  /** The lines of a file: a final newline does not open another line. */
  function Lines(s: string): seq<string> {
    var pieces := Split(s);
    var n := |pieces| - 1;
    if pieces[n] == "" then pieces[..n] else pieces
  }

  function DropCR(line: string): string {
    if line != "" && line[|line| - 1] == '\r' then line[..|line| - 1] else line
  }

  lemma SplitLine(a: string, b: string)
    requires '\n' !in a
    ensures Split(a + "\n" + b) == [a] + Split(b)
  {
    var s := a + "\n" + b;
    var k := IndexNewline(s);
    assert s[|a|] == '\n';
    assert forall i :: 0 <= i < |a| ==> s[i] == a[i];
    assert k == |a|;
    assert s[..k] == a && s[k + 1..] == b;
  }

  lemma SplitOne(a: string)
    requires '\n' !in a
    ensures Split(a) == [a]
  {
  }

  // ----- Reading the file from the start ---------------------------------------

  predicate Linked(cfg: Config, before: seq<Record>, r: Record) {
    && r.sequence == |before| + 1
    && r.prevHash == LastHash(before)
    && r.hash == cfg.Signature(r)
  }

  function LastHash(rs: seq<Record>): string {
    if rs == [] then "" else rs[|rs| - 1].hash
  }

  predicate Chained(cfg: Config, rs: seq<Record>) {
    forall i :: 0 <= i < |rs| ==> Linked(cfg, rs[..i], rs[i])
  }

  /** The records of all lines that are not blank, or nothing when one does not decode. */
  function Decoded(cfg: Config, lines: seq<string>): Option<seq<Record>> {
    if lines == [] then Some([])
    else
      var n := |lines| - 1;
      var before, line := Decoded(cfg, lines[..n]), DropCR(lines[n]);
      if before.None? || Trim(line) == "" then before
      else if cfg.decode(line).None? then None
      else Some(before.value + [cfg.decode(line).value])
  }

  predicate Fits(lines: seq<string>) {
    forall i :: 0 <= i < |lines| ==> |lines[i]| < LINE_BUFFER
  }

  predicate FileValid(cfg: Config, content: string) {
    && Fits(Lines(content))
    && Decoded(cfg, Lines(content)).Some?
    && Chained(cfg, Decoded(cfg, Lines(content)).value)
  }

  lemma ChainedExtend(cfg: Config, rs: seq<Record>, r: Record)
    ensures Chained(cfg, rs + [r]) <==> Chained(cfg, rs) && Linked(cfg, rs, r)
  {
    hide Linked;
    var longer := rs + [r];
    assert longer[..|rs|] == rs;
    assert forall i :: 0 <= i < |rs| ==> longer[..i] == rs[..i] && longer[i] == rs[i];
    if Chained(cfg, longer) {
      forall i | 0 <= i < |rs|
        ensures Linked(cfg, rs[..i], rs[i])
      {
        assert Linked(cfg, longer[..i], longer[i]);
      }
      assert Linked(cfg, longer[..|rs|], longer[|rs|]);
    }
  }

  lemma {:induction false} DecodedPrefix(cfg: Config, lines: seq<string>, n: nat)
    requires n <= |lines| && Decoded(cfg, lines).Some? && Chained(cfg, Decoded(cfg, lines).value)
    ensures Decoded(cfg, lines[..n]).Some? && Chained(cfg, Decoded(cfg, lines[..n]).value)
    decreases |lines|
  {
    hide Linked, Chained, Trim, DropCR;
    if n == |lines| {
      assert lines[..n] == lines;
    } else {
      var m := |lines| - 1;
      var before := Decoded(cfg, lines[..m]).value;
      if Decoded(cfg, lines).value != before {
        ChainedExtend(cfg, before, cfg.decode(DropCR(lines[m])).value);
      }
      DecodedPrefix(cfg, lines[..m], n);
      assert lines[..m][..n] == lines[..n];
    }
  }

  /** Reads every line through a bounded buffer and follows the chain. */
  method VerifyExisting(cfg: Config, content: string) returns (ok: bool, sequence: nat, prevHash: string)
    ensures ok <==> FileValid(cfg, content)
    ensures ok ==> sequence == |Decoded(cfg, Lines(content)).value| && prevHash == LastHash(Decoded(cfg, Lines(content)).value)
  {
    hide Trim, DropCR, Lines, Linked, Chained;
    var lines := Lines(content);
    var expectedSequence, previous := 1, "";
    ghost var rs: seq<Record> := [];
    ok, sequence, prevHash := false, 0, "";
    NothingChained(cfg);
    assert lines[..0] == [];
    for i := 0 to |lines|
      invariant !ok
      invariant forall k :: 0 <= k < i ==> |lines[k]| < LINE_BUFFER
      invariant Decoded(cfg, lines[..i]) == Some(rs) && Chained(cfg, rs)
      invariant expectedSequence == |rs| + 1 && previous == LastHash(rs)
    {
      assert lines[..i + 1][..i] == lines[..i];
      if |lines[i]| >= LINE_BUFFER {
        return;
      }
      var line := DropCR(lines[i]);
      if Trim(line) == "" {
        continue;
      }
      var record := cfg.decode(line);
      if FileValid(cfg, content) {
        DecodedPrefix(cfg, lines, i + 1);
      }
      if record.None? {
        return;
      }
      LinkDecided(cfg, rs, record.value, expectedSequence, previous);
      ChainedExtend(cfg, rs, record.value);
      if record.value.sequence != expectedSequence {
        return;
      }
      if record.value.prevHash != previous {
        return;
      }
      if record.value.hash != cfg.Signature(record.value) {
        return;
      }
      rs := rs + [record.value];
      previous := record.value.hash;
      expectedSequence := expectedSequence + 1;
    }
    assert lines[..|lines|] == lines;
    ok, sequence, prevHash := true, expectedSequence - 1, previous;
  }

  lemma NothingChained(cfg: Config)
    ensures Chained(cfg, []) && LastHash([]) == ""
  {
  }

  lemma LinkDecided(cfg: Config, rs: seq<Record>, r: Record, expectedSequence: nat, previous: string)
    requires expectedSequence == |rs| + 1 && previous == LastHash(rs)
    ensures Linked(cfg, rs, r) <==>
      r.sequence == expectedSequence && r.prevHash == previous && r.hash == cfg.Signature(r)
  {
  }

  // ----- Reading the tail ------------------------------------------------------

  function TailStart(content: string): nat {
    if |content| > TAIL then |content| - TAIL else 0
  }

  /** Of a window that is cut from a longer file, the whole lines after its first newline. */
  function WindowText(window: string, cut: bool): string {
    if !cut then window
    else
      var k := IndexNewline(window);
      if k == |window| then "" else window[k + 1..]
  }

  function TailText(content: string): string {
    WindowText(content[TailStart(content)..], TailStart(content) > 0)
  }

  function LinesOf(text: string): seq<string> {
    var trimmed := Trim(text);
    if trimmed == "" then [] else Split(trimmed)
  }

  function TailLines(content: string): seq<string> {
    LinesOf(TailText(content))
  }

  /** The lines seen when the read of the window ends after so many bytes. */
  function SeenLines(content: string, read: nat): seq<string>
    requires read <= |content| - TailStart(content)
  {
    LinesOf(WindowText(content[TailStart(content)..][..read], TailStart(content) > 0))
  }

  lemma WholeRead(content: string)
    ensures SeenLines(content, |content| - TailStart(content)) == TailLines(content)
  {
    var window := content[TailStart(content)..];
    assert window[..|window|] == window;
  }

  predicate Continues(cfg: Config, before: seq<Record>, r: Record) {
    && r.hash == cfg.Signature(r)
    && (before != [] ==> r.sequence == before[|before| - 1].sequence + 1 && r.prevHash == before[|before| - 1].hash)
  }

  function Parsed(cfg: Config, lines: seq<string>): Option<seq<Record>> {
    if lines == [] then Some([])
    else
      var n := |lines| - 1;
      var before, record := Parsed(cfg, lines[..n]), cfg.decode(lines[n]);
      if before.None? || record.None? || !Continues(cfg, before.value, record.value) then None
      else Some(before.value + [record.value])
  }

  lemma {:induction false} ParsedPrefix(cfg: Config, lines: seq<string>, n: nat)
    requires n <= |lines| && Parsed(cfg, lines).Some?
    ensures Parsed(cfg, lines[..n]).Some?
    decreases |lines|
  {
    hide Continues;
    if n == |lines| {
      assert lines[..n] == lines;
    } else {
      ParsedPrefix(cfg, lines[..|lines| - 1], n);
      assert lines[..|lines| - 1][..n] == lines[..n];
    }
  }

  function Published(r: Record): Event {
    Event(r.sequence, r.timestamp, r.operation, r.details)
  }

  predicate Visible(r: Record, includeStarted: bool) {
    includeStarted || !HasSuffix(r.operation, "_started")
  }

  /** Newest first, at most `limit` of them. */
  function Newest(rs: seq<Record>, includeStarted: bool, limit: nat): seq<Event> {
    if rs == [] || limit == 0 then []
    else
      var n := |rs| - 1;
      if Visible(rs[n], includeStarted) then [Published(rs[n])] + Newest(rs[..n], includeStarted, limit - 1)
      else Newest(rs[..n], includeStarted, limit)
  }

  function EffectiveLimit(limit: int): nat {
    if limit < 1 then 20 else if limit > 100 then 100 else limit
  }

  /** How an attempt to sign and encode a record, write its line and sync it ends. */
  datatype Write = Synced | Torn(written: nat) | Unsynced | Unencoded

  /** What a reader of the tail gets: the events, how many records there are, and how far to trust them. */
  datatype Page = Page(events: seq<Event>, total: nat, truncated: bool, verified: bool)

  function Stamped(cfg: Config, r: Record, sequence: nat, prevHash: string, now: nat): Record {
    var placed := r.(sequence := sequence + 1, timestamp := if r.timestamp == 0 then now else r.timestamp, prevHash := prevHash);
    placed.(hash := cfg.Signature(placed))
  }

  predicate Possible(cfg: Config, r: Record, write: Write) {
    write.Torn? ==> write.written <= |cfg.encode(r)|
  }

  /** What an attempt to write a stamped record adds to the file. */
  function Written(cfg: Config, r: Record, write: Write): string
    requires Possible(cfg, r, write)
  {
    match write
    case Unencoded => ""
    case Torn(written) => cfg.encode(r)[..written]
    case _ => cfg.encode(r) + "\n"
  }

  /** The lines to show: nothing for a window without a newline or a blank one. */
  method ReadTail(content: string, read: nat) returns (lines: seq<string>)
    requires read <= |content| - TailStart(content)
    ensures lines == SeenLines(content, read)
  {
    hide Trim, Split, IndexNewline;
    var size := |content|;
    var start := if size > TAIL then size - TAIL else 0;
    var text := content[start..][..read];
    if start > 0 {
      var newline := IndexNewline(text);
      text := if newline == |text| then "" else text[newline + 1..];
    }
    var trimmed := Trim(text);
    lines := if trimmed == "" then [] else Split(trimmed);
  }

  lemma EmptyPage(cfg: Config, includeStarted: bool, limit: nat)
    ensures Parsed(cfg, []) == Some([]) && Newest([], includeStarted, limit) == []
  {
  }

  lemma BlankTail()
    ensures TailLines("") == [] && Trim("") == ""
  {
  }

  /** Every line is decoded, its signature recomputed and its place in the chain compared. */
  method CheckTail(cfg: Config, lines: seq<string>) returns (result: Option<seq<Record>>)
    ensures result == Parsed(cfg, lines)
  {
    hide Continues;
    var records: seq<Record> := [];
    assert lines[..0] == [];
    for index := 0 to |lines|
      invariant Parsed(cfg, lines[..index]) == Some(records) && |records| == index
    {
      assert lines[..index + 1][..index] == lines[..index];
      if Parsed(cfg, lines).Some? {
        ParsedPrefix(cfg, lines, index + 1);
      }
      var record := cfg.decode(lines[index]);
      if record.None? {
        return None;
      }
      ContinuesDecided(cfg, records, record.value);
      if record.value.hash != cfg.Signature(record.value) {
        return None;
      }
      if index > 0 {
        var previous := records[index - 1];
        if record.value.sequence != previous.sequence + 1 || record.value.prevHash != previous.hash {
          return None;
        }
      }
      records := records + [record.value];
    }
    assert lines[..|lines|] == lines;
    result := Some(records);
  }

  lemma ContinuesDecided(cfg: Config, before: seq<Record>, r: Record)
    ensures Continues(cfg, before, r) <==>
      && r.hash == cfg.Signature(r)
      && (|before| > 0 ==> r.sequence == before[|before| - 1].sequence + 1 && r.prevHash == before[|before| - 1].hash)
  {
  }

  method Collect(records: seq<Record>, includeStarted: bool, limit: nat) returns (events: seq<Event>)
    ensures events == Newest(records, includeStarted, limit)
  {
    hide Visible;
    events := [];
    var index := |records|;
    assert records[..index] == records;
    while index > 0 && |events| < limit
      invariant 0 <= index <= |records| && |events| <= limit
      invariant Newest(records, includeStarted, limit) == events + Newest(records[..index], includeStarted, limit - |events|)
    {
      index := index - 1;
      assert records[..index + 1][..index] == records[..index];
      if Visible(records[index], includeStarted) {
        events := events + [Published(records[index])];
      }
    }
  }

  class AuditLog {
    const cfg: Config
    var open: bool
    var content: string
    var sequence: nat
    var prevHash: string
    var verified: bool

    constructor (cfg: Config, content: string, sequence: nat, prevHash: string)
      ensures this.cfg == cfg && this.content == content && this.sequence == sequence && this.prevHash == prevHash
      ensures open && verified
    {
      this.cfg, this.content, this.sequence, this.prevHash := cfg, content, sequence, prevHash;
      open, verified := true, true;
    }

    /** Nothing checks `verified` here: a log that failed goes on writing under the same number, but says so. */
    method Append(record: Record, now: nat, write: Write) returns (stored: Option<Record>)
      requires Possible(cfg, Stamped(cfg, record, sequence, prevHash, now), write)
      modifies this`content, this`sequence, this`prevHash, this`verified
      ensures verified <==> old(verified) && stored.Some?
      ensures var r := Stamped(cfg, record, old(sequence), old(prevHash), now);
              if old(open) && write.Synced? then
                && stored == Some(r) && content == old(content) + (cfg.encode(r) + "\n")
                && sequence == r.sequence && prevHash == r.hash
              else
                && stored == None && sequence == old(sequence) && prevHash == old(prevHash)
                && content == old(content) + if old(open) then Written(cfg, r, write) else ""
    {
      if !open {
        verified := false;
        return None;
      }
      var r := record.(sequence := sequence + 1, prevHash := prevHash);
      if r.timestamp == 0 {
        r := r.(timestamp := now);
      }
      if write.Unencoded? {
        verified := false;
        return None;
      }
      r := r.(hash := cfg.Signature(r));
      assert r == Stamped(cfg, record, sequence, prevHash, now);
      var encoded := cfg.encode(r) + "\n";
      match write {
        case Torn(written) =>
          content := content + encoded[..written];
          verified := false;
          return None;
        case Unsynced =>
          content := content + encoded;
          verified := false;
          return None;
        case Synced =>
          content := content + encoded;
          sequence := r.sequence;
          prevHash := r.hash;
          stored := Some(r);
      }
    }

    /**
     An empty file is not read; otherwise the file must be measured and read, and what was read of its
     tail verified. `read` is how many bytes of the window came back, if the read did not fail.
     */
    method Recent(limit: int, includeStarted: bool, measured: bool, read: Option<nat>) returns (page: Option<Page>)
      requires read.Some? ==> read.value <= |content| - TailStart(content)
      modifies this`verified
      ensures page == if !old(open) || !measured || (content != "" && read.None?) then None
                      else match Parsed(cfg, if content == "" then [] else SeenLines(content, read.value))
                           case None => None
                           case Some(rs) =>
                             Some(Page(Newest(rs, includeStarted, EffectiveLimit(limit)), sequence, TailStart(content) > 0, old(verified)))
      ensures verified <==> old(verified) && page.Some?
    {
      hide Parsed, SeenLines, Newest;
      if !open || !measured {
        verified := false;
        return None;
      }
      EmptyPage(cfg, includeStarted, EffectiveLimit(limit));
      if |content| == 0 {
        return Some(Page([], sequence, false, verified));
      }
      if read.None? {
        verified := false;
        return None;
      }
      var lines := ReadTail(content, read.value);
      var records := CheckTail(cfg, lines);
      if records.None? {
        verified := false;
        return None;
      }
      var events := Collect(records.value, includeStarted, EffectiveLimit(limit));
      page := Some(Page(events, sequence, TailStart(content) > 0, verified));
    }

    method Close()
      modifies this`open
      ensures !open
    {
      open := false;
    }
  }

  method OpenAuditLog(cfg: Config, content: string) returns (log: Option<AuditLog>)
    ensures log.Some? <==> FileValid(cfg, content)
    ensures log.Some? ==> fresh(log.value) && log.value.cfg == cfg && log.value.content == content
    ensures log.Some? ==> log.value.open && log.value.verified
    ensures log.Some? ==> var rs := Decoded(cfg, Lines(content)).value;
                          log.value.sequence == |rs| && log.value.prevHash == LastHash(rs)
  {
    hide FileValid, Lines, Decoded;
    var ok, sequence, prevHash := VerifyExisting(cfg, content);
    if !ok {
      return None;
    }
    var audit := new AuditLog(cfg, content, sequence, prevHash);
    log := Some(audit);
  }

  // ----- What appending leaves behind ------------------------------------------

  /** The file that holds exactly these records, one a line. */
  function Render(cfg: Config, rs: seq<Record>): string {
    if rs == [] then "" else Render(cfg, rs[..|rs| - 1]) + (cfg.encode(rs[|rs| - 1]) + "\n")
  }

  function Encoded(cfg: Config, rs: seq<Record>): (lines: seq<string>)
    ensures |lines| == |rs| && forall i :: 0 <= i < |rs| ==> lines[i] == cfg.encode(rs[i])
  {
    seq(|rs|, i requires 0 <= i < |rs| => cfg.encode(rs[i]))
  }

  lemma {:induction false} RenderFront(cfg: Config, rs: seq<Record>)
    requires rs != []
    ensures Render(cfg, rs) == cfg.encode(rs[0]) + "\n" + Render(cfg, rs[1..])
    decreases |rs|
  {
    var n := |rs| - 1;
    if n == 0 {
      assert rs[..0] == [] && rs[1..] == [];
    } else {
      RenderFront(cfg, rs[..n]);
      assert rs[..n][1..] == rs[1..][..n - 1];
      ConcatAssociates(cfg.encode(rs[0]) + "\n", Render(cfg, rs[1..][..n - 1]), cfg.encode(rs[n]) + "\n");
    }
  }

  lemma {:induction false} SplitRendered(cfg: Config, rs: seq<Record>)
    requires cfg.Codec()
    ensures Split(Render(cfg, rs)) == Encoded(cfg, rs) + [""]
    decreases |rs|
  {
    hide Split, Render, Trimmed;
    if rs == [] {
      RenderNothing(cfg);
      SplitOne("");
    } else {
      assert OneLine(cfg.encode(rs[0]));
      RenderFront(cfg, rs);
      SplitLine(cfg.encode(rs[0]), Render(cfg, rs[1..]));
      SplitRendered(cfg, rs[1..]);
    }
  }

  lemma RenderNothing(cfg: Config)
    ensures Render(cfg, []) == ""
  {
  }

  lemma LinesOfRendered(cfg: Config, rs: seq<Record>)
    requires cfg.Codec()
    ensures Lines(Render(cfg, rs)) == Encoded(cfg, rs)
  {
    hide Split, Render;
    SplitRendered(cfg, rs);
  }

  lemma {:induction false} DecodedEncoded(cfg: Config, rs: seq<Record>)
    requires cfg.Codec()
    ensures Decoded(cfg, Encoded(cfg, rs)) == Some(rs)
    decreases |rs|
  {
    hide Trim;
    if rs != [] {
      var n := |rs| - 1;
      var line := cfg.encode(rs[n]);
      DecodedEncoded(cfg, rs[..n]);
      assert Encoded(cfg, rs)[..n] == Encoded(cfg, rs[..n]);
      assert OneLine(line) && cfg.decode(line) == Some(rs[n]);
      TrimFixpoint(line);
      assert DropCR(line) == line && Trim(line) != "";
      assert rs[..n] + [rs[n]] == rs;
    }
  }

  /** Reading back what was rendered: valid exactly when chained and every line fits the reader's buffer. */
  lemma RenderedValidExactly(cfg: Config, rs: seq<Record>)
    requires cfg.Codec()
    ensures FileValid(cfg, Render(cfg, rs)) <==> Chained(cfg, rs) && Fits(Encoded(cfg, rs))
    ensures Decoded(cfg, Lines(Render(cfg, rs))) == Some(rs)
  {
    hide Lines, Render, Chained;
    LinesOfRendered(cfg, rs);
    DecodedEncoded(cfg, rs);
  }

  /** One append: a record and the time on the clock. */
  datatype Input = Input(record: Record, now: nat)

  function Next(cfg: Config, rs: seq<Record>, input: Input): Record {
    Stamped(cfg, input.record, |rs|, LastHash(rs), input.now)
  }

  /** The chain after successful appends, in order. */
  function AppendedTo(cfg: Config, rs: seq<Record>, inputs: seq<Input>): (all: seq<Record>)
    ensures |all| == |rs| + |inputs| && rs <= all
  {
    if inputs == [] then rs
    else
      var n := |inputs| - 1;
      var before := AppendedTo(cfg, rs, inputs[..n]);
      before + [Next(cfg, before, inputs[n])]
  }

  lemma StampedLinks(cfg: Config, rs: seq<Record>, input: Input)
    requires Chained(cfg, rs)
    ensures Chained(cfg, rs + [Next(cfg, rs, input)])
    ensures Render(cfg, rs + [Next(cfg, rs, input)]) == Render(cfg, rs) + Written(cfg, Next(cfg, rs, input), Synced)
  {
    hide Chained;
    var stored := Next(cfg, rs, input);
    assert stored.(hash := "") == stored.(hash := "").(hash := "");
    ChainedExtend(cfg, rs, stored);
    assert (rs + [stored])[..|rs|] == rs;
  }

  /**
   Any number of appends whose writes succeed leaves a file that opens with the same sequence
   and last hash, exactly when no line outgrew the reader's buffer.
   */
  lemma {:induction false} AppendsReopenExactly(cfg: Config, rs: seq<Record>, inputs: seq<Input>)
    requires cfg.Codec() && Chained(cfg, rs)
    ensures var all := AppendedTo(cfg, rs, inputs);
            && Chained(cfg, all)
            && (FileValid(cfg, Render(cfg, all)) <==> Fits(Encoded(cfg, all)))
            && Decoded(cfg, Lines(Render(cfg, all))) == Some(all)
    decreases |inputs|
  {
    hide Chained, FileValid, Lines, Render, Decoded;
    if inputs != [] {
      var n := |inputs| - 1;
      AppendsReopenExactly(cfg, rs, inputs[..n]);
      StampedLinks(cfg, AppendedTo(cfg, rs, inputs[..n]), inputs[n]);
    }
    RenderedValidExactly(cfg, AppendedTo(cfg, rs, inputs));
  }

  // ----- Every log can be outgrown ---------------------------------------------

  ghost const ALPHABET := set c: char | true

  /** All texts of one length. */
  ghost function Texts(n: nat): set<string> {
    if n == 0 then {""} else set t, c | t in Texts(n - 1) && c in ALPHABET :: t + [c]
  }

  lemma {:induction false} InTexts(s: string)
    ensures s in Texts(|s|)
    decreases |s|
  {
    if s != "" {
      var n := |s| - 1;
      InTexts(s[..n]);
      assert s == s[..n] + [s[n]] && s[n] in ALPHABET;
    }
  }

  ghost function ShorterThan(n: nat): set<string> {
    if n == 0 then {} else ShorterThan(n - 1) + Texts(n - 1)
  }

  lemma {:induction false} InShorter(s: string, n: nat)
    requires |s| < n
    ensures s in ShorterThan(n)
    decreases n
  {
    hide Texts;
    if |s| == n - 1 {
      InTexts(s);
    } else {
      InShorter(s, n - 1);
    }
  }

  lemma {:induction false} FirstOf(f: nat -> string, n: nat) returns (image: set<string>)
    requires forall i: nat, j: nat :: i < n && j < n && f(i) == f(j) ==> i == j
    ensures |image| == n && forall s :: s in image <==> exists i: nat :: i < n && f(i) == s
    decreases n
  {
    if n == 0 {
      image := {};
    } else {
      var less := FirstOf(f, n - 1);
      assert f(n - 1) !in less;
      image := less + {f(n - 1)};
    }
  }

  lemma Fewer(small: set<string>, large: set<string>)
    requires small <= large
    ensures |small| <= |large|
  {
    assert large == small + (large - small);
  }

  /** Different texts for all numbers cannot all be short. */
  lemma SomeIsLong(f: nat -> string, length: nat) returns (i: nat)
    requires forall i: nat, j: nat :: f(i) == f(j) ==> i == j
    ensures |f(i)| >= length
  {
    var short := ShorterThan(length);
    var n := |short| + 1;
    var image := FirstOf(f, n);
    if forall i: nat :: i < n ==> |f(i)| < length {
      forall s | s in image
        ensures s in short
      {
        InShorter(s, length);
      }
      Fewer(image, short);
      assert false;
    }
    i :| i < n && |f(i)| >= length;
  }

  function Long(n: nat, now: nat): Input {
    Input(Record(0, 1, "", seq(n, _ => 'a'), "", "", ""), now)
  }

  /** Whatever the codec and the log, one record that is written without complaint keeps it from opening again. */
  lemma SomeRecordShutsTheLog(cfg: Config, rs: seq<Record>, now: nat)
    requires cfg.Codec() && Chained(cfg, rs)
    ensures exists n: nat :: !FileValid(cfg, Render(cfg, AppendedTo(cfg, rs, [Long(n, now)])))
  {
    hide FileValid, Render, Chained, Texts, ShorterThan;
    var line := (n: nat) => cfg.encode(Next(cfg, rs, Long(n, now)));
    forall i: nat, j: nat | line(i) == line(j)
      ensures i == j
    {
      var a, b := Next(cfg, rs, Long(i, now)), Next(cfg, rs, Long(j, now));
      assert cfg.decode(cfg.encode(a)) == Some(a) && cfg.decode(cfg.encode(b)) == Some(b);
      assert |a.details| == i && |b.details| == j;
    }
    var n := SomeIsLong(line, LINE_BUFFER);
    var inputs := [Long(n, now)];
    var all := AppendedTo(cfg, rs, inputs);
    assert inputs[..0] == [] && AppendedTo(cfg, rs, []) == rs;
    assert all == rs + [Next(cfg, rs, Long(n, now))];
    AppendsReopenExactly(cfg, rs, inputs);
    assert Encoded(cfg, all)[|rs|] == line(n);
  }

  // ----- What the tail shows ---------------------------------------------------

  /** How many of the first records begin at or before a byte of the file. */
  function BegunBy(cfg: Config, rs: seq<Record>, at: nat): (k: nat)
    ensures k <= |rs|
  {
    if rs == [] then 0
    else
      var n := |rs| - 1;
      if |Render(cfg, rs[..n])| <= at then |rs| else BegunBy(cfg, rs[..n], at)
  }

  lemma {:induction false} RenderSplit(cfg: Config, rs: seq<Record>, k: nat)
    requires k <= |rs|
    ensures Render(cfg, rs) == Render(cfg, rs[..k]) + Render(cfg, rs[k..])
    decreases |rs|
  {
    if k == |rs| {
      assert rs[..k] == rs && rs[k..] == [];
    } else {
      var n := |rs| - 1;
      RenderSplit(cfg, rs[..n], k);
      assert rs[..n][..k] == rs[..k] && rs[..n][k..] == rs[k..][..n - k];
      assert rs[k..][n - k] == rs[n];
    }
  }

  lemma {:induction false} BegunBounds(cfg: Config, rs: seq<Record>, at: nat)
    requires at < |Render(cfg, rs)|
    ensures var k := BegunBy(cfg, rs, at);
            0 < k <= |rs| && |Render(cfg, rs[..k - 1])| <= at < |Render(cfg, rs[..k])|
    decreases |rs|
  {
    var n := |rs| - 1;
    if |Render(cfg, rs[..n])| <= at {
      assert rs[..|rs|] == rs;
    } else {
      BegunBounds(cfg, rs[..n], at);
      var k := BegunBy(cfg, rs[..n], at);
      assert rs[..n][..k - 1] == rs[..k - 1] && rs[..n][..k] == rs[..k];
    }
  }

  lemma NewlineInside(line: string, rest: string, from: nat)
    requires '\n' !in line && from <= |line|
    ensures var tail := (line + "\n" + rest)[from..];
            IndexNewline(tail) == |line| - from && tail[|line| - from + 1..] == rest
  {
    hide IndexNewline;
    var s := line + "\n" + rest;
    var tail := s[from..];
    var k := IndexNewline(tail);
    assert tail[|line| - from] == s[|line|] == '\n';
    assert forall i :: 0 <= i < |line| - from ==> tail[i] == line[from + i];
    assert k == |line| - from;
  }

  /** The window starts inside some line: that line is dropped, and all later ones are kept. */
  lemma TailOfRendered(cfg: Config, rs: seq<Record>)
    requires cfg.Codec()
    ensures var content := Render(cfg, rs);
            var k := if TailStart(content) == 0 then 0 else BegunBy(cfg, rs, TailStart(content));
            TailText(content) == Render(cfg, rs[k..])
  {
    hide Render, BegunBy, IndexNewline, Trimmed;
    var content := Render(cfg, rs);
    var start := TailStart(content);
    if start == 0 {
      assert rs[0..] == rs && content[0..] == content;
    } else {
      var k := BegunBy(cfg, rs, start);
      BegunBounds(cfg, rs, start);
      RenderSplit(cfg, rs, k - 1);
      RenderFront(cfg, rs[k - 1..]);
      assert rs[k - 1..][1..] == rs[k..] && rs[k - 1..][0] == rs[k - 1];
      RenderSplit(cfg, rs[..k], k - 1);
      assert rs[..k][..k - 1] == rs[..k - 1] && rs[..k][k - 1..] == [rs[k - 1]];
      RenderFront(cfg, [rs[k - 1]]);
      assert [rs[k - 1]][1..] == [];
      RenderNothing(cfg);
      var head, line, rest := Render(cfg, rs[..k - 1]), cfg.encode(rs[k - 1]), Render(cfg, rs[k..]);
      assert OneLine(line);
      assert content == head + (line + "\n" + rest);
      assert content[start..] == (line + "\n" + rest)[start - |head|..];
      NewlineInside(line, rest, start - |head|);
    }
  }

  lemma TailLinesOfRendered(cfg: Config, rs: seq<Record>)
    requires cfg.Codec() && rs != []
    ensures Split(Trim(Render(cfg, rs))) == Encoded(cfg, rs) && Trim(Render(cfg, rs)) != ""
  {
    hide Trim, Split, Render;
    var content := Render(cfg, rs);
    var n := |rs| - 1;
    RenderSplit(cfg, rs, n);
    RenderFront(cfg, rs[n..]);
    assert rs[n..][1..] == [] && rs[n..][0] == rs[n];
    RenderNothing(cfg);
    RenderFront(cfg, rs);
    var first, last := cfg.encode(rs[0]), cfg.encode(rs[n]);
    assert OneLine(first) && OneLine(last);
    var to := |content| - 1;
    assert content[0] == first[0] && content[to] == '\n' && content[to - 1] == last[|last| - 1];
    var trimmed := content[0..to];
    assert trimmed[0] == content[0] && trimmed[to - 1] == content[to - 1];
    TrimUnique(content, 0, to);
    TrimFixpoint(trimmed);
    assert content == trimmed + "\n";
    SplitRendered(cfg, rs);
    SplitLast(trimmed);
    assert (Split(trimmed) + [""])[..|Split(trimmed)|] == Split(trimmed);
    assert (Encoded(cfg, rs) + [""])[..|rs|] == Encoded(cfg, rs);
  }

  lemma CutParts(s: string, k: nat)
    requires k < |s| && s[k] == '\n'
    ensures s == s[..k] + "\n" + s[k + 1..]
  {
  }

  lemma SplitCut(s: string, k: nat)
    requires k == IndexNewline(s) < |s|
    ensures '\n' !in s[..k] && Split(s) == [s[..k]] + Split(s[k + 1..])
  {
    hide IndexNewline;
  }

  lemma {:induction false} SplitLast(s: string)
    ensures Split(s + "\n") == Split(s) + [""]
    decreases |s|
  {
    hide Split, IndexNewline;
    var k := IndexNewline(s);
    if k == |s| {
      SplitLine(s, "");
      assert s + "\n" + "" == s + "\n";
      SplitOne("");
      SplitOne(s);
    } else {
      SplitCut(s, k);
      CutParts(s, k);
      var a, b := s[..k], s[k + 1..];
      SplitLast(b);
      SplitLine(a, b + "\n");
      assert s + "\n" == a + "\n" + (b + "\n");
    }
  }

  lemma LinkedContinues(cfg: Config, rs: seq<Record>, k: nat, n: nat)
    requires Chained(cfg, rs) && k < n <= |rs|
    ensures Continues(cfg, rs[k..n - 1], rs[n - 1])
  {
    assert Linked(cfg, rs[..n - 1], rs[n - 1]);
    if k < n - 1 {
      assert Linked(cfg, rs[..n - 2], rs[n - 2]);
    }
  }

  lemma {:induction false} ParsedEncoded(cfg: Config, rs: seq<Record>, k: nat, n: nat)
    requires cfg.Codec() && Chained(cfg, rs) && k <= n <= |rs|
    ensures Parsed(cfg, Encoded(cfg, rs[k..n])) == Some(rs[k..n])
    decreases n
  {
    hide Chained, Continues, OneLine;
    if k < n {
      ParsedEncoded(cfg, rs, k, n - 1);
      LinkedContinues(cfg, rs, k, n);
      var part := rs[k..n];
      var m := |part| - 1;
      assert part[m] == rs[n - 1] && part[..m] == rs[k..n - 1];
      assert Encoded(cfg, part)[..m] == Encoded(cfg, part[..m]);
      assert cfg.decode(cfg.encode(part[m])) == Some(part[m]);
      assert part[..m] + [part[m]] == part;
    }
  }

  /**
   On a file that only appends have written, reading the tail never fails, and it shows the
   newest visible events among the records that begin after the window's first byte.
   */
  lemma RecentOnRendered(cfg: Config, rs: seq<Record>)
    requires cfg.Codec() && Chained(cfg, rs)
    ensures var content := Render(cfg, rs);
            var k := if TailStart(content) == 0 then 0 else BegunBy(cfg, rs, TailStart(content));
            Parsed(cfg, TailLines(content)) == Some(rs[k..])
  {
    hide Render, Split, Trim, TailStart, TailText, Chained, Parsed, BegunBy;
    var content := Render(cfg, rs);
    var k := if TailStart(content) == 0 then 0 else BegunBy(cfg, rs, TailStart(content));
    TailOfRendered(cfg, rs);
    ParsedEncoded(cfg, rs, k, |rs|);
    assert rs[k..|rs|] == rs[k..];
    if rs[k..] == [] {
      RenderNothing(cfg);
      BlankTail();
      assert Encoded(cfg, rs[k..]) == [];
    } else {
      TailLinesOfRendered(cfg, rs[k..]);
    }
  }

  lemma RenderGrows(cfg: Config, rs: seq<Record>, i: nat, k: nat)
    requires i <= k <= |rs|
    ensures |Render(cfg, rs[..i])| <= |Render(cfg, rs[..k])|
  {
    hide Render;
    RenderSplit(cfg, rs[..k], i);
    assert rs[..k][..i] == rs[..i];
  }

  /** A record that lies wholly inside the window, but is not among those the page is made of. */
  ghost predicate WholeLineDropped(cfg: Config, rs: seq<Record>) {
    var content := Render(cfg, rs);
    var parsed := Parsed(cfg, TailLines(content));
    && parsed.Some?
    && exists i :: 0 <= i < |rs| - |parsed.value| && |Render(cfg, rs[..i])| >= TailStart(content)
  }

  /** What is read is an end of the log; a whole line is missing from it exactly when the window begins with a line. */
  lemma WholeLineDroppedExactly(cfg: Config, rs: seq<Record>)
    requires cfg.Codec() && Chained(cfg, rs)
    ensures var parsed := Parsed(cfg, TailLines(Render(cfg, rs)));
            parsed.Some? && |parsed.value| <= |rs| && parsed.value == rs[|rs| - |parsed.value|..]
    ensures WholeLineDropped(cfg, rs)
       <==> TailStart(Render(cfg, rs)) > 0
            && exists i :: 0 <= i < |rs| && |Render(cfg, rs[..i])| == TailStart(Render(cfg, rs))
  {
    hide Render, TailLines, Chained, Parsed, BegunBy;
    var content := Render(cfg, rs);
    var start := TailStart(content);
    var k := if start == 0 then 0 else BegunBy(cfg, rs, start);
    RecentOnRendered(cfg, rs);
    assert |rs[k..]| == |rs| - k;
    if start > 0 {
      BegunBounds(cfg, rs, start);
      forall i | 0 <= i < k
        ensures |Render(cfg, rs[..i])| <= start
      {
        RenderGrows(cfg, rs, i, k - 1);
      }
      forall i | k <= i < |rs|
        ensures |Render(cfg, rs[..i])| > start
      {
        RenderGrows(cfg, rs, k, i);
      }
    }
  }

  function Shown(rs: seq<Record>, includeStarted: bool): seq<Event> {
    if rs == [] then []
    else
      var n := |rs| - 1;
      Shown(rs[..n], includeStarted) + if Visible(rs[n], includeStarted) then [Published(rs[n])] else []
  }

  /** The page is the end of the visible events, turned round. */
  lemma {:induction false} NewestIsLastShown(rs: seq<Record>, includeStarted: bool, limit: nat)
    ensures var page, shown := Newest(rs, includeStarted, limit), Shown(rs, includeStarted);
            && |page| == (if |shown| < limit then |shown| else limit)
            && forall i :: 0 <= i < |page| ==> page[i] == shown[|shown| - 1 - i]
    decreases |rs|
  {
    hide Visible;
    if rs != [] && limit != 0 {
      var n := |rs| - 1;
      NewestIsLastShown(rs[..n], includeStarted, if Visible(rs[n], includeStarted) then limit - 1 else limit);
    }
  }

  // ----- Torn writes -----------------------------------------------------------

  /** No proper part of an encoded record decodes. */
  ghost predicate SelfDelimiting(cfg: Config) {
    forall r, n: nat :: 0 < n < |cfg.encode(r)| ==> Trim(DropCR(cfg.encode(r)[..n])) != "" && cfg.decode(DropCR(cfg.encode(r)[..n])).None?
  }

  lemma {:induction false} SplitAfter(cfg: Config, rs: seq<Record>, rest: string)
    requires cfg.Codec()
    ensures Split(Render(cfg, rs) + rest) == Encoded(cfg, rs) + Split(rest)
    decreases |rs|
  {
    hide Split, Render, Trimmed;
    if rs == [] {
      RenderNothing(cfg);
      assert "" + rest == rest;
    } else {
      var line, later := cfg.encode(rs[0]), Render(cfg, rs[1..]);
      assert OneLine(line);
      RenderFront(cfg, rs);
      assert Render(cfg, rs) + rest == line + "\n" + (later + rest);
      SplitLine(line, later + rest);
      SplitAfter(cfg, rs[1..], rest);
    }
  }

  lemma LinesOfTorn(cfg: Config, rs: seq<Record>, part: string)
    requires cfg.Codec() && '\n' !in part && part != ""
    ensures Lines(Render(cfg, rs) + part) == Encoded(cfg, rs) + [part]
  {
    hide Split, Render;
    SplitAfter(cfg, rs, part);
    SplitOne(part);
  }

  /** A torn line is noticed at the next start, unless nothing or all but its newline was written. */
  lemma TornWriteNoticedExactly(cfg: Config, rs: seq<Record>, r: Record, written: nat)
    requires cfg.Codec() && SelfDelimiting(cfg) && Chained(cfg, rs + [r]) && Fits(Encoded(cfg, rs + [r]))
    requires written <= |cfg.encode(r)|
    ensures FileValid(cfg, Render(cfg, rs) + cfg.encode(r)[..written]) <==> written == 0 || written == |cfg.encode(r)|
  {
    hide Render, Trim, Split, Lines, Linked;
    var line := cfg.encode(r);
    var part := line[..written];
    var content := Render(cfg, rs) + part;
    ChainedExtend(cfg, rs, r);
    assert OneLine(line) && cfg.decode(line) == Some(r);
    assert forall i :: 0 <= i < |rs| ==> Encoded(cfg, rs + [r])[i] == Encoded(cfg, rs)[i];
    assert Encoded(cfg, rs + [r])[|rs|] == line;
    if written == 0 {
      assert content == Render(cfg, rs);
      RenderedValidExactly(cfg, rs);
    } else {
      LinesOfTorn(cfg, rs, part);
      DecodedEncoded(cfg, rs);
      var lines := Encoded(cfg, rs) + [part];
      assert lines[..|rs|] == Encoded(cfg, rs) && lines[|rs|] == part;
      if written == |line| {
        assert part == line && DropCR(line) == line;
        TrimFixpoint(line);
      }
    }
  }

  // ----- Appending after a failure ---------------------------------------------

  /** A record, or the beginning of one, does not decode with another record right behind it. */
  ghost predicate NeverRunsOn(cfg: Config) {
    forall r, s, n: nat :: 0 < n <= |cfg.encode(r)| ==> cfg.decode(cfg.encode(r)[..n] + cfg.encode(s)).None?
  }

  lemma {:induction false} DecodedFront(cfg: Config, lines: seq<string>, n: nat)
    requires n <= |lines| && Decoded(cfg, lines).Some?
    ensures Decoded(cfg, lines[..n]).Some?
    decreases |lines|
  {
    hide Trim, DropCR;
    if n == |lines| {
      assert lines[..n] == lines;
    } else {
      DecodedFront(cfg, lines[..|lines| - 1], n);
      assert lines[..|lines| - 1][..n] == lines[..n];
    }
  }

  /** A line that does not decode spoils the file, whatever follows. */
  lemma SpoiledLine(cfg: Config, before: seq<string>, line: string, after: seq<string>)
    requires Trim(DropCR(line)) != "" && cfg.decode(DropCR(line)).None?
    ensures Decoded(cfg, before + [line] + after).None?
  {
    hide Trim, DropCR;
    var lines, front := before + [line] + after, before + [line];
    assert lines[..|front|] == front && front[..|before|] == before;
    assert Decoded(cfg, front).None?;
    if Decoded(cfg, lines).Some? {
      DecodedFront(cfg, lines, |front|);
    }
  }

  lemma JoinedLines(cfg: Config, rs: seq<Record>, part: string, later: seq<Record>)
    requires cfg.Codec() && '\n' !in part && later != []
    ensures Lines(Render(cfg, rs) + part + Render(cfg, later))
         == Encoded(cfg, rs) + [part + cfg.encode(later[0])] + Encoded(cfg, later[1..])
  {
    hide Split, Render, Trimmed, Lines, Encoded;
    var line, head := cfg.encode(later[0]), Render(cfg, rs);
    var rest := Render(cfg, later[1..]);
    assert OneLine(line);
    RenderFront(cfg, later);
    Regrouped(head, part, line + "\n" + rest, part + line + "\n" + rest);
    SplitAfter(cfg, rs, part + line + "\n" + rest);
    SplitLine(part + line, rest);
    SplitRendered(cfg, later[1..]);
    LinesOfSplit(head + (part + line + "\n" + rest), Encoded(cfg, rs), part + line, Encoded(cfg, later[1..]));
  }

  lemma Regrouped(head: string, part: string, tail: string, joined: string)
    requires part + tail == joined
    ensures head + part + tail == head + joined
  {
  }

  lemma LinesOfSplit(content: string, before: seq<string>, line: string, after: seq<string>)
    requires Split(content) == before + ([line] + (after + [""]))
    ensures Lines(content) == before + [line] + after
  {
    hide Split;
    var pieces := before + ([line] + (after + [""]));
    assert pieces[|pieces| - 1] == "" && pieces[..|pieces| - 1] == before + [line] + after;
  }

  lemma TornThenAppended(cfg: Config, rs: seq<Record>, r: Record, written: nat, later: seq<Record>)
    requires cfg.Codec() && NeverRunsOn(cfg) && later != [] && 0 < written <= |cfg.encode(r)|
    ensures !FileValid(cfg, Render(cfg, rs) + cfg.encode(r)[..written] + Render(cfg, later))
  {
    hide Split, Render, Lines, Trim, Decoded, Chained;
    var part, line := cfg.encode(r)[..written], cfg.encode(later[0]);
    assert OneLine(cfg.encode(r)) && OneLine(line);
    JoinedLines(cfg, rs, part, later);
    var joined := part + line;
    assert joined[0] == cfg.encode(r)[0] && joined[|joined| - 1] == line[|line| - 1];
    assert DropCR(joined) == joined;
    TrimFixpoint(joined);
    SpoiledLine(cfg, Encoded(cfg, rs), joined, Encoded(cfg, later[1..]));
  }

  /** The same number twice: the line that was not synced, and the one appended next. */
  lemma UnsyncedThenAppended(cfg: Config, rs: seq<Record>, r: Record, later: seq<Record>)
    requires cfg.Codec() && later != [] && later[0].sequence == |rs| + 1
    ensures !FileValid(cfg, Render(cfg, rs) + (cfg.encode(r) + "\n") + Render(cfg, later))
  {
    hide FileValid, Render;
    var all := rs + [r] + later;
    RenderSplit(cfg, all, |rs| + 1);
    assert all[..|rs| + 1] == rs + [r] && all[|rs| + 1..] == later;
    RenderSplit(cfg, rs + [r], |rs|);
    assert (rs + [r])[..|rs|] == rs && (rs + [r])[|rs|..] == [r];
    RenderFront(cfg, [r]);
    assert [r][1..] == [];
    RenderNothing(cfg);
    assert cfg.encode(r) + "\n" + "" == cfg.encode(r) + "\n";
    RenderedValidExactly(cfg, all);
    assert all[|rs| + 1] == later[0];
    ChainedNumbers(cfg, all, |rs| + 1);
  }

  lemma ChainedNumbers(cfg: Config, rs: seq<Record>, i: nat)
    requires i < |rs|
    ensures Chained(cfg, rs) ==> rs[i].sequence == i + 1
  {
    assert Chained(cfg, rs) ==> Linked(cfg, rs[..i], rs[i]);
  }

  /**
   After an append that failed, later appends that succeed leave a file that opens exactly when the
   failed one left nothing behind.
   */
  lemma FailedAppendHealsExactly(cfg: Config, rs: seq<Record>, failed: Input, write: Write, inputs: seq<Input>)
    requires cfg.Codec() && NeverRunsOn(cfg) && Chained(cfg, rs)
    requires !write.Synced? && Possible(cfg, Next(cfg, rs, failed), write) && inputs != []
    requires Fits(Encoded(cfg, AppendedTo(cfg, rs, inputs)))
    ensures var later := AppendedTo(cfg, rs, inputs)[|rs|..];
            FileValid(cfg, Render(cfg, rs) + Written(cfg, Next(cfg, rs, failed), write) + Render(cfg, later))
            <==> write.Unencoded? || write == Torn(0)
  {
    hide FileValid, Render, NeverRunsOn, Next, Chained, Encoded, AppendedTo, Fits;
    var all := AppendedTo(cfg, rs, inputs);
    var later, r := all[|rs|..], Next(cfg, rs, failed);
    AppendsReopenExactly(cfg, rs, inputs);
    RenderSplit(cfg, all, |rs|);
    assert all[..|rs|] == rs;
    ChainedNumbers(cfg, all, |rs|);
    match write {
      case Unsynced => UnsyncedThenAppended(cfg, rs, r, later);
      case Torn(written) =>
        if written > 0 {
          TornThenAppended(cfg, rs, r, written, later);
        } else {
          NothingWritten(Render(cfg, rs), cfg.encode(r)[..0]);
        }
      case Unencoded => NothingWritten(Render(cfg, rs), "");
    }
  }

  lemma NothingWritten(content: string, left: string)
    requires left == ""
    ensures content + left == content
  {
  }
}
