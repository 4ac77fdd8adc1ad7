/**
 The Linux cpulist format (pegaflow-common/src/numa.rs): printing a list of CPU
 ids as ranges and parsing it back.
 */
module CpuList {
  import opened Prelude

  type Range = (nat, nat)

  datatype ParseError = BadRange | BadCpuId

  // ---------------------------------------------------------------------------
  // Splitting and joining
  // ---------------------------------------------------------------------------

  function Split(s: string, sep: char): (r: seq<string>)
    ensures r != []
  {
    if s == "" then [""]
    else
      var rest := Split(s[1..], sep);
      if s[0] == sep then [""] + rest else [[s[0]] + rest[0]] + rest[1..]
  }

  function Join(parts: seq<string>, sep: char): string {
    if parts == [] then ""
    else if |parts| == 1 then parts[0]
    else parts[0] + [sep] + Join(parts[1..], sep)
  }

  lemma {:induction false} SplitFirst(p: string, rest: string, sep: char)
    requires sep !in p
    ensures Split(p + [sep] + rest, sep) == [p] + Split(rest, sep)
  {
    var s := p + [sep] + rest;
    if p == "" {
      assert s[1..] == rest;
    } else {
      assert s[1..] == p[1..] + [sep] + rest;
      SplitFirst(p[1..], rest, sep);
      assert [p[0]] + p[1..] == p;
    }
  }

  lemma {:induction false} SplitWhole(p: string, sep: char)
    requires sep !in p
    ensures Split(p, sep) == [p]
  {
    if p != "" {
      SplitWhole(p[1..], sep);
      assert [p[0]] + p[1..] == p;
    }
  }

  /** Splitting undoes joining, when no part contains the separator. */
  lemma {:induction false} SplitJoin(parts: seq<string>, sep: char)
    requires parts != [] && forall i :: 0 <= i < |parts| ==> sep !in parts[i]
    ensures Split(Join(parts, sep), sep) == parts
  {
    if |parts| == 1 {
      SplitWhole(parts[0], sep);
    } else {
      SplitJoin(parts[1..], sep);
      SplitFirst(parts[0], Join(parts[1..], sep), sep);
    }
  }

  // ---------------------------------------------------------------------------
  // Numbers
  // ---------------------------------------------------------------------------

  function DigitChar(d: nat): char
    requires d < 10
  {
    '0' + d as char
  }

  predicate IsDigit(c: char) { '0' <= c <= '9' }

  function Decimal(n: nat): string {
    if n < 10 then [DigitChar(n)] else Decimal(n / 10) + [DigitChar(n % 10)]
  }

  function DigitOf(c: char): nat
    requires IsDigit(c)
  {
    c as nat - '0' as nat
  }

  predicate AllDigits(s: string) { s != "" && forall i :: 0 <= i < |s| ==> IsDigit(s[i]) }

  function ValueOf(s: string): nat
    requires forall i :: 0 <= i < |s| ==> IsDigit(s[i])
  {
    if s == "" then 0 else 10 * ValueOf(s[..|s| - 1]) + DigitOf(s[|s| - 1])
  }

  /** Parsing a `usize`: an optional plus sign, digits, and no overflow. */
  function ParseUsize(s: string): Option<nat> {
    var body := if s != "" && s[0] == '+' then s[1..] else s;
    if AllDigits(body) && ValueOf(body) <= U64_MAX then Some(ValueOf(body)) else None
  }

  lemma {:induction false} DecimalDigits(n: nat)
    ensures AllDigits(Decimal(n)) && ValueOf(Decimal(n)) == n
    ensures |Decimal(n)| > 1 ==> Decimal(n)[0] != '0'
  {
    if n < 10 {
      assert Decimal(n)[..0] == "";
    } else {
      DecimalDigits(n / 10);
      assert Decimal(n)[..|Decimal(n)| - 1] == Decimal(n / 10);
    }
  }

  lemma ParseDecimal(n: nat)
    requires n <= 0xFFFF_FFFF_FFFF_FFFF
    ensures ParseUsize(Decimal(n)) == Some(n)
    ensures ',' !in Decimal(n) && '-' !in Decimal(n)
  {
    DecimalDigits(n);
  }

  /** A plus sign is accepted; anything else in front of the digits is not. */
  lemma ParseSigned(n: nat, c: char)
    requires n <= 0xFFFF_FFFF_FFFF_FFFF && !IsDigit(c)
    ensures ParseUsize([c] + Decimal(n)) == if c == '+' then Some(n) else None
  {
    DecimalDigits(n);
    var s := [c] + Decimal(n);
    assert s[0] == c && s[1..] == Decimal(n);
  }

  // ---------------------------------------------------------------------------
  // Ranges
  // ---------------------------------------------------------------------------

  /** Both ends included; empty when they are out of order. */
  function Expand(r: Range): (cpus: seq<nat>)
    ensures |cpus| == (if r.0 <= r.1 then r.1 - r.0 + 1 else 0) && forall i :: 0 <= i < |cpus| ==> cpus[i] == r.0 + i
  {
    if r.0 <= r.1 then seq(r.1 - r.0 + 1, i requires 0 <= i => r.0 + i) else []
  }

  function ExpandAll(rs: seq<Range>): seq<nat> {
    if rs == [] then [] else ExpandAll(rs[..|rs| - 1]) + Expand(rs[|rs| - 1])
  }

  /** Maximal runs of consecutive ids, in list order. */
  function RangesOf(cpus: seq<nat>): seq<Range> {
    if cpus == [] then []
    else Extend(RangesOf(cpus[..|cpus| - 1]), cpus[|cpus| - 1])
  }

  function Extend(rs: seq<Range>, cpu: nat): seq<Range> {
    if rs != [] && cpu == rs[|rs| - 1].1 + 1 then rs[|rs| - 1 := (rs[|rs| - 1].0, cpu)] else rs + [(cpu, cpu)]
  }

  function Render(r: Range): string { if r.0 == r.1 then Decimal(r.0) else Decimal(r.0) + "-" + Decimal(r.1) }

  function RenderAll(rs: seq<Range>): (parts: seq<string>)
    ensures |parts| == |rs| && forall i :: 0 <= i < |rs| ==> parts[i] == Render(rs[i])
  {
    seq(|rs|, i requires 0 <= i < |rs| => Render(rs[i]))
  }

  predicate GoodRanges(rs: seq<Range>) { forall i :: 0 <= i < |rs| ==> rs[i].0 <= rs[i].1 <= U64_MAX }

  lemma {:induction false} RangesExpand(cpus: seq<nat>)
    requires forall i :: 0 <= i < |cpus| ==> cpus[i] <= U64_MAX
    ensures GoodRanges(RangesOf(cpus)) && ExpandAll(RangesOf(cpus)) == cpus
  {
    if cpus != [] {
      var n := |cpus| - 1;
      RangesExpand(cpus[..n]);
      ExtendExpands(RangesOf(cpus[..n]), cpus[n]);
      assert cpus == cpus[..n] + [cpus[n]];
    }
  }

  lemma ExtendExpands(rs: seq<Range>, cpu: nat)
    requires GoodRanges(rs) && cpu <= U64_MAX
    ensures GoodRanges(Extend(rs, cpu)) && ExpandAll(Extend(rs, cpu)) == ExpandAll(rs) + [cpu]
  {
    var out := Extend(rs, cpu);
    var n := |rs| - 1;
    if rs != [] && cpu == rs[n].1 + 1 {
      assert out[..n] == rs[..n];
      assert Expand((rs[n].0, cpu)) == Expand(rs[n]) + [cpu];
    } else {
      assert out[..|rs|] == rs;
      assert Expand((cpu, cpu)) == [cpu];
    }
  }

  /** A run could not have been longer: no range goes on where the one before ends. */
  predicate Maximal(rs: seq<Range>) { forall i :: 0 <= i < |rs| - 1 ==> rs[i + 1].0 != rs[i].1 + 1 }

  lemma {:induction false} RangesMaximal(cpus: seq<nat>)
    ensures Maximal(RangesOf(cpus)) && (cpus != [] ==> RangesOf(cpus) != [])
    ensures cpus != [] ==> RangesOf(cpus)[|RangesOf(cpus)| - 1].1 == cpus[|cpus| - 1]
  {
    if cpus != [] {
      var n := |cpus| - 1;
      RangesMaximal(cpus[..n]);
      var rs, out := RangesOf(cpus[..n]), RangesOf(cpus);
      forall i | 0 <= i < |out| - 1 ensures out[i + 1].0 != out[i].1 + 1 {
        assert i < |rs| - 1 ==> rs[i + 1].0 != rs[i].1 + 1;
      }
    }
  }

  /** What `format_cpu_list` pushes for the current run: one number, or the two ends. */
  method Flush(start: nat, prev: nat) returns (part: string)
    ensures part == Render((start, prev))
    ensures part == if start == prev then Decimal(start) else Decimal(start) + "-" + Decimal(prev)
  {
    if start == prev {
      part := Decimal(start);
    } else {
      part := Decimal(start) + "-" + Decimal(prev);
    }
  }

  lemma RenderSnoc(rs: seq<Range>, r: Range)
    ensures RenderAll(rs + [r]) == RenderAll(rs) + [Render(r)]
  {
  }

  /** Printing; None where computing the successor of an id would overflow. */
  method FormatCpuList(cpus: seq<usize>) returns (r: Option<string>)
    ensures r.None? <==> exists i :: 0 <= i < |cpus| - 1 && cpus[i] == 0xFFFF_FFFF_FFFF_FFFF
    ensures r.Some? ==> r.value == Join(RenderAll(RangesOf(cpus)), ',')
  {
    if cpus == [] {
      return Some("");
    }
    var start, prev := cpus[0], cpus[0];
    var parts: seq<string> := [];
    ghost var done: seq<Range> := [];
    assert cpus[..1][..0] == [] && RangesOf(cpus[..1]) == [(start, prev)];
    for i := 1 to |cpus|
      invariant prev == cpus[i - 1] && forall k :: 0 <= k < i - 1 ==> cpus[k] != U64_MAX
      invariant RangesOf(cpus[..i]) == done + [(start, prev)] && parts == RenderAll(done)
    {
      if prev == U64_MAX {
        return None;
      }
      var cpu := cpus[i];
      assert cpus[..i + 1][..i] == cpus[..i];
      if cpu == prev + 1 {
        prev := cpu;
      } else {
        var part := Flush(start, prev);
        RenderSnoc(done, (start, prev));
        parts := parts + [part];
        done := done + [(start, prev)];
        start, prev := cpu, cpu;
      }
    }
    assert cpus[..|cpus|] == cpus;
    var last := Flush(start, prev);
    RenderSnoc(done, (start, prev));
    return Some(Join(parts + [last], ','));
  }

  // ---------------------------------------------------------------------------
  // Parsing
  // ---------------------------------------------------------------------------

  /** The ids one part stands for. */
  function ParsePart(part: string): Option<seq<nat>> {
    if '-' in part then
      var ends := Split(part, '-');
      if |ends| != 2 || ParseUsize(ends[0]).None? || ParseUsize(ends[1]).None? then None
      else Some(Expand((ParseUsize(ends[0]).value, ParseUsize(ends[1]).value)))
    else if ParseUsize(part).None? then None
    else Some([ParseUsize(part).value])
  }

  /** The ids of a list of parts, in order. */
  function ParseParts(parts: seq<string>): Option<seq<nat>> {
    if parts == [] then Some([])
    else
      var before, last := ParseParts(parts[..|parts| - 1]), ParsePart(parts[|parts| - 1]);
      if before.None? || last.None? then None else Some(before.value + last.value)
  }

  function ParseAll(s: string): Option<seq<nat>> { if s == "" then Some([]) else ParseParts(Split(s, ',')) }

  predicate Increasing(cpus: seq<nat>) { forall i, j :: 0 <= i < j < |cpus| ==> cpus[i] < cpus[j] }

  predicate Ascending(cpus: seq<nat>) { forall i, j :: 0 <= i < j < |cpus| ==> cpus[i] <= cpus[j] }

  method InsertAscending(sorted: seq<nat>, cpu: nat) returns (out: seq<nat>)
    requires Ascending(sorted)
    ensures Ascending(out) && multiset(out) == multiset(sorted) + multiset{cpu}
  {
    var at := 0;
    while at < |sorted| && sorted[at] <= cpu
      invariant 0 <= at <= |sorted| && forall k :: 0 <= k < at ==> sorted[k] <= cpu
    {
      at := at + 1;
    }
    PutIn(sorted, at, cpu);
    out := sorted[..at] + [cpu] + sorted[at..];
  }

  lemma PutIn(sorted: seq<nat>, at: nat, cpu: nat)
    requires Ascending(sorted) && at <= |sorted| && (forall k :: 0 <= k < at ==> sorted[k] <= cpu)
    requires (at < |sorted| ==> cpu <= sorted[at])
    ensures Ascending(sorted[..at] + [cpu] + sorted[at..])
    ensures multiset(sorted[..at] + [cpu] + sorted[at..]) == multiset(sorted) + multiset{cpu}
  {
    assert sorted == sorted[..at] + sorted[at..];
    PutInOrder(sorted, sorted[..at] + [cpu] + sorted[at..], at, cpu);
  }

  lemma PutInOrder(sorted: seq<nat>, out: seq<nat>, at: nat, cpu: nat)
    requires Ascending(sorted) && at <= |sorted| && (forall k :: 0 <= k < at ==> sorted[k] <= cpu)
    requires (at < |sorted| ==> cpu <= sorted[at])
    requires |out| == |sorted| + 1 && out[at] == cpu
    requires forall k :: 0 <= k < at ==> out[k] == sorted[k]
    requires forall k :: at < k < |out| ==> out[k] == sorted[k - 1]
    ensures Ascending(out)
  {
    forall k | at <= k < |sorted| ensures cpu <= sorted[k] {
      assert k == at || sorted[at] <= sorted[k];
    }
    forall i, j | 0 <= i < j < |out| ensures out[i] <= out[j] {
      if i < at && j > at {
        assert out[i] == sorted[i] && out[j] == sorted[j - 1] && (i < j - 1 ==> sorted[i] <= sorted[j - 1]);
      } else if i == at {
        assert out[j] == sorted[j - 1] && cpu <= sorted[j - 1];
      } else if i > at {
        assert out[i] == sorted[i - 1] && out[j] == sorted[j - 1];
      }
    }
  }

  method SortAscending(cpus: seq<nat>) returns (out: seq<nat>)
    ensures Ascending(out) && multiset(out) == multiset(cpus)
  {
    out := [];
    for i := 0 to |cpus|
      invariant Ascending(out) && multiset(out) == multiset(cpus[..i])
    {
      out := InsertAscending(out, cpus[i]);
      assert cpus[..i + 1] == cpus[..i] + [cpus[i]];
    }
    assert cpus[..|cpus|] == cpus;
  }

  lemma IncreasingSnoc(cpus: seq<nat>, cpu: nat)
    requires Increasing(cpus) && (cpus != [] ==> cpus[|cpus| - 1] < cpu)
    ensures Increasing(cpus + [cpu])
  {
    assert forall i :: 0 <= i < |cpus| - 1 ==> cpus[i] < cpus[|cpus| - 1];
  }

  /** Drop repeats of the element before. */
  method Dedup(cpus: seq<nat>) returns (out: seq<nat>)
    requires Ascending(cpus)
    ensures Increasing(out) && forall c :: c in out <==> c in cpus
  {
    out := [];
    for i := 0 to |cpus|
      invariant Increasing(out) && (forall c :: c in out <==> c in cpus[..i])
      invariant (out == [] <==> i == 0) && (i > 0 ==> out[|out| - 1] == cpus[i - 1])
    {
      assert cpus[..i + 1] == cpus[..i] + [cpus[i]];
      if out == [] || out[|out| - 1] != cpus[i] {
        assert i > 0 ==> cpus[i - 1] <= cpus[i];
        IncreasingSnoc(out, cpus[i]);
        out := out + [cpus[i]];
      }
    }
    assert cpus[..|cpus|] == cpus;
  }

  method SortDistinct(cpus: seq<nat>) returns (out: seq<nat>)
    ensures Increasing(out) && forall c :: c in out <==> c in cpus
  {
    var sorted := SortAscending(cpus);
    forall c ensures c in sorted <==> c in cpus {
      assert c in sorted <==> c in multiset(sorted);
    }
    out := Dedup(sorted);
  }

  /** Push the ids of a range one by one. */
  method CollectRange(start: nat, end: nat) returns (cpus: seq<nat>)
    ensures cpus == Expand((start, end))
  {
    cpus := [];
    var cpu := start;
    while cpu <= end
      invariant start <= cpu && (if start <= end then cpu <= end + 1 else cpu == start)
      invariant |cpus| == cpu - start && forall k :: 0 <= k < |cpus| ==> cpus[k] == start + k
      decreases end + 1 - cpu
    {
      cpus, cpu := cpus + [cpu], cpu + 1;
    }
  }

  /** One part of the list. */
  method ReadPart(part: string) returns (r: Result<seq<nat>, ParseError>)
    ensures r.Ok? <==> ParsePart(part).Some?
    ensures r.Ok? ==> r.value == ParsePart(part).value
  {
    if '-' in part {
      var ends := Split(part, '-');
      if |ends| != 2 {
        return Err(BadRange);
      }
      var start, end := ParseUsize(ends[0]), ParseUsize(ends[1]);
      if start.None? || end.None? {
        return Err(BadCpuId);
      }
      var cpus := CollectRange(start.value, end.value);
      return Ok(cpus);
    }
    var cpu := ParseUsize(part);
    if cpu.None? {
      return Err(BadCpuId);
    }
    return Ok([cpu.value]);
  }

  /** Parsing: the ids the text stands for, sorted and without repeats. */
  method ParseCpuList(s: string) returns (r: Result<seq<nat>, ParseError>)
    ensures r.Ok? <==> ParseAll(s).Some?
    ensures r.Ok? ==> Increasing(r.value) && forall c :: c in r.value <==> c in ParseAll(s).value
  {
    var cpus: seq<nat> := [];
    if s == "" {
      return Ok(cpus);
    }
    var parts := Split(s, ',');
    for i := 0 to |parts|
      invariant ParseParts(parts[..i]) == Some(cpus)
    {
      var part := ReadPart(parts[i]);
      assert parts[..i + 1][..i] == parts[..i];
      if part.Err? {
        PartFails(parts, i);
        return Err(part.error);
      }
      cpus := cpus + part.value;
    }
    assert parts[..|parts|] == parts;
    var out := SortDistinct(cpus);
    r := Ok(out);
  }

  lemma {:induction false} PartFails(parts: seq<string>, i: nat)
    requires i < |parts| && ParsePart(parts[i]).None?
    ensures ParseParts(parts).None?
  {
    if i < |parts| - 1 { PartFails(parts[..|parts| - 1], i); }
  }

  // ---------------------------------------------------------------------------
  // Round trip
  // ---------------------------------------------------------------------------

  lemma ParseRendered(r: Range)
    requires r.0 <= r.1 <= U64_MAX
    ensures ParsePart(Render(r)) == Some(Expand(r)) && ',' !in Render(r)
  {
    ParseDecimal(r.0);
    ParseDecimal(r.1);
    if r.0 == r.1 {
      assert Expand(r) == [r.0];
    } else {
      assert Render(r) == Decimal(r.0) + ['-'] + Decimal(r.1);
      SplitFirst(Decimal(r.0), Decimal(r.1), '-');
      SplitWhole(Decimal(r.1), '-');
      assert '-' in Render(r);
    }
  }

  lemma {:induction false} ParseRenderedAll(rs: seq<Range>)
    requires GoodRanges(rs)
    ensures ParseParts(RenderAll(rs)) == Some(ExpandAll(rs))
  {
    if rs != [] {
      var n := |rs| - 1;
      ParseRenderedAll(rs[..n]);
      ParseRendered(rs[n]);
      assert RenderAll(rs)[..n] == RenderAll(rs[..n]);
    }
  }

  /** Reading the printed form gives back the list, element by element. */
  lemma ParseUndoesFormat(cpus: seq<nat>)
    requires forall i :: 0 <= i < |cpus| ==> cpus[i] <= U64_MAX
    ensures ParseAll(Join(RenderAll(RangesOf(cpus)), ',')) == Some(cpus)
  {
    RangesExpand(cpus);
    if cpus != [] {
      var rs := RangesOf(cpus);
      forall i | 0 <= i < |rs| ensures ',' !in RenderAll(rs)[i] {
        ParseRendered(rs[i]);
      }
      ParseRenderedAll(rs);
      SplitJoin(RenderAll(rs), ',');
      assert Split("", ',') == [""];
      if Join(RenderAll(rs), ',') == "" {
        assert RenderAll(rs) == [""] && RenderAll(rs)[0] == Render(rs[0]);
        DecimalDigits(rs[0].0);
      }
    }
  }

  lemma SameEmptiness(a: seq<nat>, b: seq<nat>)
    requires forall c :: c in a <==> c in b
    ensures a == [] <==> b == []
  {
    if a != [] { assert a[0] in b; }
    if b != [] { assert b[0] in a; }
  }

  /** Strictly increasing lists with the same elements are the same list. */
  lemma {:induction false} IncreasingUnique(a: seq<nat>, b: seq<nat>)
    requires Increasing(a) && Increasing(b) && forall c :: c in a <==> c in b
    ensures a == b
  {
    SameEmptiness(a, b);
    if a != [] {
      assert a[|a| - 1] in a;
      var m, n := |a| - 1, |b| - 1;
      assert b[n] in b;
      LastIsLargest(a, b[n]);
      LastIsLargest(b, a[m]);
      assert a[m] == b[n];
      forall c ensures c in a[..m] <==> c in b[..n] {
        DroppedLast(a, c);
        DroppedLast(b, c);
      }
      IncreasingUnique(a[..m], b[..n]);
      assert a == a[..m] + [a[m]] && b == b[..n] + [b[n]];
    }
  }

  lemma LastIsLargest(a: seq<nat>, c: nat)
    requires Increasing(a) && c in a
    ensures c <= a[|a| - 1]
  {
  }

  lemma DroppedLast(a: seq<nat>, c: nat)
    requires Increasing(a) && a != []
    ensures c in a[..|a| - 1] <==> c in a && c != a[|a| - 1]
  {
    assert a == a[..|a| - 1] + [a[|a| - 1]];
  }

  /** Print, then parse: the sorted, duplicate-free list; a strictly increasing list comes back unchanged. */
  method RoundTrip(cpus: seq<usize>) returns (r: seq<nat>)
    requires forall i :: 0 <= i < |cpus| - 1 ==> cpus[i] < U64_MAX
    ensures Increasing(r) && forall c :: c in r <==> c in cpus
    ensures Increasing(cpus) ==> r == cpus
  {
    var text := FormatCpuList(cpus);
    ParseUndoesFormat(cpus);
    var parsed := ParseCpuList(text.value);
    r := parsed.value;
    if Increasing(cpus) {
      IncreasingUnique(r, cpus);
    }
  }
}
