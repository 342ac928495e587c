/** Shared vocabulary: optional values, results with an error, and ASCII text handling. */

module Wrappers {

  datatype Option<+T> = None | Some(value: T) {
    function GetOr(default: T): T {
      if Some? then value else default
    }
  }

  datatype Result<+T, +E> = Ok(value: T) | Err(error: E)
}

module Numbers {

  function Max(a: int, b: int): int { if a >= b then a else b }
}

/** The end of a sequence, and facts about slices, each kept small on purpose. */
module Sequences {

  function LastN<T>(s: seq<T>, n: nat): (r: seq<T>)
    ensures |r| == if |s| <= n then |s| else n
    ensures r == s[|s| - |r|..]
  {
    if |s| <= n then s else s[|s| - n..]
  }

  /** Places in a sequence of n, each once and in order. */
  predicate Ascending(places: seq<nat>, n: nat) {
    (forall k :: 0 <= k < |places| ==> places[k] < n) && forall j, k :: 0 <= j < k < |places| ==> places[j] < places[k]
  }

  lemma NoPlaces()
    ensures Ascending([], 0)
  {
  }

  lemma AscendingGrows(places: seq<nat>, n: nat)
    requires Ascending(places, n)
    ensures n !in places && Ascending(places, n + 1) && Ascending(places + [n], n + 1)
  {
  }

  lemma Concatenated<T>(a: seq<T>, b: seq<T>)
    ensures (a + b)[|a|..] == b && forall i :: 0 <= i < |a| ==> (a + b)[i] == a[i]
  {
  }

  lemma ConcatAssociates<T>(a: seq<T>, b: seq<T>, c: seq<T>)
    ensures (a + b) + c == a + (b + c)
  {
  }

  lemma DropConcat<T>(a: seq<T>, b: seq<T>, n: nat)
    requires n <= |a|
    ensures (a + b)[n..] == a[n..] + b
  {
  }

  lemma DropDrop<T>(s: seq<T>, n: nat, k: nat)
    requires n + k <= |s|
    ensures s[n..][k..] == s[n + k..]
  {
  }
}

/** Adding up the counts of a finite map, in any order. */
module Sums {

  ghost function SumOf(counts: map<string, nat>): nat
    decreases |counts|
  {
    if counts == map[] then 0
    else
      var key :| key in counts;
      counts[key] + SumOf(counts - {key})
  }

  lemma {:induction false} SumWithout(counts: map<string, nat>, key: string)
    requires key in counts
    ensures SumOf(counts) == counts[key] + SumOf(counts - {key})
    decreases |counts|
  {
    var picked :| picked in counts && SumOf(counts) == counts[picked] + SumOf(counts - {picked});
    if picked != key {
      var less, other := counts - {picked}, counts - {key};
      SumWithout(less, key);
      SumWithout(other, picked);
      assert less - {key} == other - {picked};
    }
  }

  /** Changing one count changes the sum by as much. */
  lemma SumUpdate(counts: map<string, nat>, key: string, value: nat)
    ensures SumOf(counts[key := value]) == SumOf(counts) + value - if key in counts then counts[key] else 0
  {
    var updated := counts[key := value];
    SumWithout(updated, key);
    assert updated - {key} == counts - {key};
    if key in counts {
      SumWithout(counts, key);
    } else {
      assert counts - {key} == counts;
    }
  }

  lemma {:induction false} ZeroSum(counts: map<string, nat>)
    requires forall key :: key in counts ==> counts[key] == 0
    ensures SumOf(counts) == 0
    decreases |counts|
  {
    if counts != map[] {
      var key :| key in counts;
      SumWithout(counts, key);
      ZeroSum(counts - {key});
    }
  }
}

/** Trimming and letter case over ASCII text, with the laws the audit chain relies on. */
module Text {

  predicate IsSpace(c: char) {
    c == ' ' || c == '\t' || c == '\n' || c == '\U{000B}' || c == '\U{000C}' || c == '\r'
  }

  function TrimLeft(s: string): string {
    if s != "" && IsSpace(s[0]) then TrimLeft(s[1..]) else s
  }

  function TrimRight(s: string): string {
    if s != "" && IsSpace(s[|s| - 1]) then TrimRight(s[..|s| - 1]) else s
  }

  function Trim(s: string): string {
    TrimRight(TrimLeft(s))
  }

  predicate Trimmed(s: string) {
    s == "" || (!IsSpace(s[0]) && !IsSpace(s[|s| - 1]))
  }

  predicate Blank(s: string) {
    forall i :: 0 <= i < |s| ==> IsSpace(s[i])
  }

  lemma {:induction false} TrimLeftSlice(s: string) returns (from: nat)
    ensures from <= |s| && TrimLeft(s) == s[from..]
    ensures forall i :: 0 <= i < from ==> IsSpace(s[i])
    ensures from < |s| ==> !IsSpace(s[from])
  {
    if s != "" && IsSpace(s[0]) {
      var rest := TrimLeftSlice(s[1..]);
      from := rest + 1;
      assert forall i :: 1 <= i < from ==> s[i] == s[1..][i - 1];
    } else {
      from := 0;
    }
  }

  lemma {:induction false} TrimRightSlice(s: string) returns (to: nat)
    ensures to <= |s| && TrimRight(s) == s[..to]
    ensures forall i :: to <= i < |s| ==> IsSpace(s[i])
    ensures to > 0 ==> !IsSpace(s[to - 1])
  {
    if s != "" && IsSpace(s[|s| - 1]) {
      to := TrimRightSlice(s[..|s| - 1]);
      assert forall i :: to <= i < |s| - 1 ==> s[i] == s[..|s| - 1][i];
    } else {
      to := |s|;
    }
  }

  /** What Trim keeps is a contiguous middle of its argument; all it drops is white space. */
  lemma TrimSlice(s: string) returns (from: nat, to: nat)
    ensures from <= to <= |s| && Trim(s) == s[from..to]
    ensures forall i :: 0 <= i < from || to <= i < |s| ==> IsSpace(s[i])
    ensures Trim(s) != "" ==> !IsSpace(s[from]) && !IsSpace(s[to - 1])
  {
    from := TrimLeftSlice(s);
    var l := s[from..];
    var length := TrimRightSlice(l);
    to := from + length;
    assert forall i :: to <= i < |s| ==> s[i] == l[i - from];
  }

  lemma TrimFixpoint(s: string)
    ensures Trimmed(s) ==> Trim(s) == s
    ensures Trimmed(Trim(s)) && Trim(Trim(s)) == Trim(s)
  {
    var from, to := TrimSlice(s);
  }

  lemma TrimEmptyIffBlank(s: string)
    ensures Trim(s) == "" <==> Blank(s)
  {
    var from, to := TrimSlice(s);
  }

  /** Any way of cutting only white space off both ends of a text gives Trim. */
  lemma TrimUnique(s: string, from: nat, to: nat)
    requires from <= to <= |s|
    requires forall i :: 0 <= i < from || to <= i < |s| ==> IsSpace(s[i])
    requires Trimmed(s[from..to])
    ensures Trim(s) == s[from..to]
  {
    var f, t := TrimSlice(s);
    if from == to {
      TrimEmptyIffBlank(s);
    } else {
      assert !IsSpace(s[from]) && !IsSpace(s[to - 1]) by {
        assert s[from..to][0] == s[from] && s[from..to][to - from - 1] == s[to - 1];
      }
      if Trim(s) == "" {
        TrimEmptyIffBlank(s);
      } else {
        assert f == from && t == to;
      }
    }
  }

  function ToUpper(c: char): (r: char)
    ensures IsSpace(r) == IsSpace(c)
  {
    if 'a' <= c <= 'z' then (c as int - 32) as char else c
  }

  function ToLower(c: char): (r: char)
    ensures IsSpace(r) == IsSpace(c)
  {
    if 'A' <= c <= 'Z' then (c as int + 32) as char else c
  }

  function Upper(s: string): (r: string)
    ensures |r| == |s| && forall i :: 0 <= i < |s| ==> r[i] == ToUpper(s[i])
  {
    seq(|s|, i requires 0 <= i < |s| => ToUpper(s[i]))
  }

  function Lower(s: string): (r: string)
    ensures |r| == |s| && forall i :: 0 <= i < |s| ==> r[i] == ToLower(s[i])
  {
    seq(|s|, i requires 0 <= i < |s| => ToLower(s[i]))
  }

  const SMALL := "abcdefghijklmnopqrstuvwxyz"
  const CAPITAL := "ABCDEFGHIJKLMNOPQRSTUVWXYZ"

  /** The letters are exchanged one for one, and no other character changes. */
  lemma CaseExactly()
    ensures forall i :: 0 <= i < 26 ==> ToUpper(SMALL[i]) == CAPITAL[i] && ToLower(CAPITAL[i]) == SMALL[i]
    ensures forall c :: c !in SMALL ==> ToUpper(c) == c
    ensures forall c :: c !in CAPITAL ==> ToLower(c) == c
  {
    assert forall i :: 0 <= i < 26 ==> SMALL[i] as int == 97 + i && CAPITAL[i] as int == 65 + i;
    forall c | 'a' <= c <= 'z'
      ensures c in SMALL
    {
      assert SMALL[c as int - 97] == c;
    }
    forall c | 'A' <= c <= 'Z'
      ensures c in CAPITAL
    {
      assert CAPITAL[c as int - 65] == c;
    }
  }

  lemma UpperIdempotent(s: string)
    ensures Upper(Upper(s)) == Upper(s)
  {
  }

  lemma LowerIdempotent(s: string)
    ensures Lower(Lower(s)) == Lower(s)
  {
  }

  lemma CaseKeepsTrimmed(s: string)
    requires Trimmed(s)
    ensures Trimmed(Upper(s)) && Trim(Upper(s)) == Upper(s)
    ensures Trimmed(Lower(s)) && Trim(Lower(s)) == Lower(s)
  {
    var u, l := Upper(s), Lower(s);
    assert Trimmed(u) && Trimmed(l);
    TrimFixpoint(u);
    TrimFixpoint(l);
  }

  function TrimUpper(s: string): string {
    Upper(Trim(s))
  }

  function TrimLower(s: string): string {
    Lower(Trim(s))
  }

  /** Trim then change case: the composite is idempotent, which Normalize depends on. */
  lemma CaseTrimIdempotent(s: string)
    ensures TrimUpper(TrimUpper(s)) == TrimUpper(s)
    ensures TrimLower(TrimLower(s)) == TrimLower(s)
  {
    var t := Trim(s);
    TrimFixpoint(s);
    CaseKeepsTrimmed(t);
    UpperIdempotent(t);
    LowerIdempotent(t);
  }

  predicate HasPrefix(s: string, prefix: string) {
    |prefix| <= |s| && s[..|prefix|] == prefix
  }

  predicate HasSuffix(s: string, suffix: string) {
    |suffix| <= |s| && s[|s| - |suffix|..] == suffix
  }

  /** The position of the first newline, or the length. */
  function IndexNewline(s: string): (e: nat)
    ensures e <= |s| && (e < |s| ==> s[e] == '\n')
    ensures forall i :: 0 <= i < e ==> s[i] != '\n'
  {
    if s == "" || s[0] == '\n' then 0
    else
      var e := IndexNewline(s[1..]);
      assert forall i :: 1 <= i < 1 + e ==> s[i] == s[1..][i - 1];
      1 + e
  }
}
