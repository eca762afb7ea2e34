/** The port-range codec of `common/utils.go`. */
module PortRanges {
  datatype RawRange = Range(begin: nat, end: nat)

  /** A range RangesToArray can expand; the empty range is written with begin == end + 1. */
  type PortRange = r: RawRange | r.begin <= r.end + 1 witness Range(0, 0)

  function RangePorts(r: PortRange): seq<nat> {
    seq(r.end + 1 - r.begin, i requires 0 <= i => r.begin + i)
  }

  function Expand(ranges: seq<PortRange>): seq<nat> {
    if ranges == [] then [] else Expand(ranges[..|ranges| - 1]) + RangePorts(ranges[|ranges| - 1])
  }

  /** Ascending, disjoint and non-adjacent ranges, none of them empty. */
  predicate Canonical(ranges: seq<PortRange>) {
    && (forall i :: 0 <= i < |ranges| ==> ranges[i].begin <= ranges[i].end)
    && (forall i :: 0 < i < |ranges| ==> ranges[i - 1].end + 1 < ranges[i].begin)
  }

  predicate Sorted(s: seq<nat>) {
    forall i, j :: 0 <= i < j < |s| ==> s[i] <= s[j]
  }

  predicate StrictlyIncreasing(s: seq<nat>) {
    forall i, j :: 0 <= i < j < |s| ==> s[i] < s[j]
  }

  predicate Distinct(s: seq<nat>) {
    forall i, j :: 0 <= i < j < |s| ==> s[i] != s[j]
  }

  ghost predicate SamePorts(s: seq<nat>, t: seq<nat>) {
    forall p :: p in s <==> p in t
  }

  // ---------- properties of the canonical form ----------

  function Last(s: seq<nat>): nat
    requires s != []
  {
    s[|s| - 1]
  }

  lemma {:induction false} CanonicalExpansion(ranges: seq<PortRange>)
    requires Canonical(ranges)
    ensures StrictlyIncreasing(Expand(ranges))
    ensures ranges != [] ==> Expand(ranges) != [] && Last(Expand(ranges)) == ranges[|ranges| - 1].end
    ensures ranges != [] ==> Expand(ranges)[0] == ranges[0].begin
  {
    if ranges != [] {
      var front, r := ranges[..|ranges| - 1], ranges[|ranges| - 1];
      CanonicalExpansion(front);
      assert |RangePorts(r)| >= 1 && RangePorts(r)[0] == r.begin;
      assert front != [] ==> front[|front| - 1].end + 1 < r.begin;
    }
  }

  lemma WithoutLast(s: seq<nat>, p: nat)
    requires StrictlyIncreasing(s) && s != []
    ensures p in s[..|s| - 1] <==> p in s && p < Last(s)
    ensures p in s ==> p <= Last(s)
  {
    if p in s {
      var i :| 0 <= i < |s| && s[i] == p;
      assert i < |s| - 1 ==> s[..|s| - 1][i] == p;
    }
  }

  lemma SameLast(s: seq<nat>, t: seq<nat>)
    requires StrictlyIncreasing(s) && StrictlyIncreasing(t) && SamePorts(s, t) && s != [] && t != []
    ensures Last(s) == Last(t)
    ensures SamePorts(s[..|s| - 1], t[..|t| - 1])
  {
    assert s[|s| - 1] in t && t[|t| - 1] in s;
    WithoutLast(t, Last(s));
    WithoutLast(s, Last(t));
    var x, y := s[..|s| - 1], t[..|t| - 1];
    forall p ensures p in x <==> p in y {
      WithoutLast(s, p);
      WithoutLast(t, p);
    }
  }

  lemma SameEmptiness(s: seq<nat>, t: seq<nat>)
    requires SamePorts(s, t)
    ensures s == [] <==> t == []
  {
    if s != [] {
      assert s[0] in t;
    }
    if t != [] {
      assert t[0] in s;
    }
  }

  /** Two strictly increasing sequences over the same ports are the same sequence. */
  lemma {:induction false} SamePortsSameSequence(s: seq<nat>, t: seq<nat>)
    requires StrictlyIncreasing(s) && StrictlyIncreasing(t) && SamePorts(s, t)
    ensures s == t
  {
    SameEmptiness(s, t);
    if s != [] {
      SameLast(s, t);
      SamePortsSameSequence(s[..|s| - 1], t[..|t| - 1]);
      assert s == s[..|s| - 1] + [Last(s)] && t == t[..|t| - 1] + [Last(t)];
    }
  }

  lemma CanonicalFront(ranges: seq<PortRange>)
    requires Canonical(ranges) && ranges != []
    ensures Canonical(ranges[..|ranges| - 1])
  {
  }

  lemma {:induction false} ExpansionMembers(ranges: seq<PortRange>, p: nat)
    ensures p in Expand(ranges) <==> exists i :: 0 <= i < |ranges| && ranges[i].begin <= p <= ranges[i].end
  {
    if ranges != [] {
      var n := |ranges| - 1;
      ExpansionMembers(ranges[..n], p);
      var r := ranges[n];
      assert p in RangePorts(r) <==> r.begin <= p <= r.end by {
        if r.begin <= p <= r.end {
          assert RangePorts(r)[p - r.begin] == p;
        }
      }
      assert forall i :: 0 <= i < n ==> ranges[..n][i] == ranges[i];
    }
  }

  lemma {:induction false} CanonicalGap(ranges: seq<PortRange>, i: nat, j: nat)
    requires Canonical(ranges) && i < j < |ranges|
    ensures ranges[i].end + 1 < ranges[j].begin
  {
    if i + 1 < j {
      CanonicalGap(ranges, i, j - 1);
    }
  }

  /** The port just below the last range is missing, so no other last range can begin lower. */
  lemma LastRange(a: seq<PortRange>, b: seq<PortRange>)
    requires Canonical(a) && Canonical(b) && a != [] && b != [] && Expand(a) == Expand(b)
    ensures a[|a| - 1].begin <= b[|b| - 1].begin && a[|a| - 1].end == b[|b| - 1].end
  {
    CanonicalExpansion(a);
    CanonicalExpansion(b);
    var m, n := |a| - 1, |b| - 1;
    var p := a[m].begin - 1;
    if p >= 0 {
      ExpansionMembers(a, p);
      ExpansionMembers(b, p);
      forall i | 0 <= i < m ensures a[i].end < p {
        CanonicalGap(a, i, m);
      }
    }
  }

  lemma {:induction false} SameExpansionSameRanges(a: seq<PortRange>, b: seq<PortRange>)
    requires Canonical(a) && Canonical(b) && Expand(a) == Expand(b)
    ensures a == b
  {
    hide RangePorts, Canonical, StrictlyIncreasing;
    CanonicalExpansion(a);
    CanonicalExpansion(b);
    if a != [] && b != [] {
      var m, n := |a| - 1, |b| - 1;
      LastRange(a, b);
      LastRange(b, a);
      CanonicalFront(a);
      CanonicalFront(b);
      assert a[m] == b[n];
      var x, y, r := Expand(a[..m]), Expand(b[..n]), RangePorts(a[m]);
      assert x + r == y + r;
      assert x == (x + r)[..|x|] && y == (y + r)[..|y|];
      SameExpansionSameRanges(a[..m], b[..n]);
      assert a == a[..m] + [a[m]] && b == b[..n] + [b[n]];
    }
  }

  /** A canonical list is determined by its ports. */
  lemma CanonicalUnique(a: seq<PortRange>, b: seq<PortRange>)
    requires Canonical(a) && Canonical(b)
    requires SamePorts(Expand(a), Expand(b))
    ensures a == b
  {
    CanonicalExpansion(a);
    CanonicalExpansion(b);
    SamePortsSameSequence(Expand(a), Expand(b));
    SameExpansionSameRanges(a, b);
  }

  // ---------- the specification of ArrayToRanges ----------

  lemma InsertedIsOld(r: seq<nat>, s: seq<nat>, p: nat, i: nat)
    requires multiset(r) == multiset(s) + multiset{p} && i < |r|
    ensures r[i] == p || r[i] in s
  {
    assert r[i] in multiset(r);
  }

  lemma OneInserted(s: seq<nat>, p: nat, last: nat, r: seq<nat>)
    requires Sorted(s + [last]) && p <= last
    requires Sorted(r) && multiset(r) == multiset(s) + multiset{p}
    ensures Sorted(r + [last]) && multiset(r + [last]) == multiset(s + [last]) + multiset{p}
  {
    forall i | 0 <= i < |r| ensures r[i] <= last {
      InsertedIsOld(r, s, p, i);
      if r[i] != p {
        var j :| 0 <= j < |s| && s[j] == r[i];
        assert (s + [last])[j] <= (s + [last])[|s|];
      }
    }
  }

  function Insert(s: seq<nat>, p: nat): (r: seq<nat>)
    requires Sorted(s)
    ensures Sorted(r) && multiset(r) == multiset(s) + multiset{p}
  {
    if s == [] || s[|s| - 1] <= p then s + [p]
    else
      var n := |s| - 1;
      assert s == s[..n] + [s[n]];
      var r := Insert(s[..n], p);
      OneInserted(s[..n], p, s[n], r);
      r + [s[n]]
  }

  function SortPorts(s: seq<nat>): (r: seq<nat>)
    ensures Sorted(r) && multiset(r) == multiset(s)
  {
    if s == [] then []
    else
      assert s == s[..|s| - 1] + [s[|s| - 1]];
      Insert(SortPorts(s[..|s| - 1]), s[|s| - 1])
  }

  /** One turn of the merging loop. */
  function Merge(ranges: seq<PortRange>, val: nat): seq<PortRange>
    requires ranges != [] && ranges[|ranges| - 1].begin <= val + 1
  {
    var last := ranges[|ranges| - 1];
    if val > last.end + 1 then ranges + [Range(val, val)] else ranges[|ranges| - 1 := last.(end := val)]
  }

  function MergeAll(sorted: seq<nat>): (ranges: seq<PortRange>)
    requires Sorted(sorted)
    ensures sorted != [] ==> ranges != []
    ensures sorted != [] ==> ranges[|ranges| - 1].begin <= ranges[|ranges| - 1].end == sorted[|sorted| - 1]
  {
    if sorted == [] then []
    else if |sorted| == 1 then [Range(sorted[0], sorted[0])]
    else Merge(MergeAll(sorted[..|sorted| - 1]), sorted[|sorted| - 1])
  }

  function RangesOf(ports: seq<nat>): seq<PortRange> {
    MergeAll(SortPorts(ports))
  }

  lemma SinglePort(val: nat)
    ensures RangePorts(Range(val, val)) == [val]
  {
  }

  lemma ExtendRange(r: PortRange, val: nat)
    requires r.begin <= r.end && r.end <= val <= r.end + 1
    ensures forall p :: p in RangePorts(r.(end := val)) <==> p in RangePorts(r) || p == val
  {
    var s, t := RangePorts(r), RangePorts(r.(end := val));
    forall p ensures p in t <==> p in s || p == val {
      if r.begin <= p <= val {
        assert t[p - r.begin] == p;
      }
      if r.begin <= p <= r.end {
        assert s[p - r.begin] == p;
      }
    }
  }

  lemma MergeKeepsPorts(ranges: seq<PortRange>, val: nat)
    requires ranges != [] && Canonical(ranges) && ranges[|ranges| - 1].end <= val
    ensures var merged := Merge(ranges, val);
            && Canonical(merged)
            && merged[|merged| - 1].end == val
            && SamePorts(Expand(merged), Expand(ranges) + [val])
  {
    hide RangePorts;
    var n := |ranges| - 1;
    var last, merged := ranges[n], Merge(ranges, val);
    if val > last.end + 1 {
      assert merged[..|merged| - 1] == ranges;
      assert Expand(merged) == Expand(ranges) + RangePorts(Range(val, val));
      SinglePort(val);
    } else {
      ExtendRange(last, val);
      assert merged[..n] == ranges[..n] && merged[n] == last.(end := val);
    }
  }

  lemma SameAppended(s: seq<nat>, t: seq<nat>, u: seq<nat>, val: nat)
    requires SamePorts(s, t + [val]) && SamePorts(t, u)
    ensures SamePorts(s, u + [val])
  {
    forall p ensures p in s <==> p in u + [val] {
      assert p in t + [val] <==> p in t || p == val;
      assert p in u + [val] <==> p in u || p == val;
    }
  }

  lemma OnePort(val: nat)
    ensures MergeAll([val]) == [Range(val, val)] && Canonical([Range(val, val)])
    ensures SamePorts(Expand([Range(val, val)]), [val])
  {
    var ranges: seq<PortRange> := [Range(val, val)];
    assert ranges[..0] == [];
    assert Expand(ranges) == RangePorts(ranges[0]);
    SinglePort(val);
  }

  /** What MergeAll promises of its last range, for all ports but the last. */
  lemma LastMerge(sorted: seq<nat>)
    requires Sorted(sorted) && |sorted| > 1
    ensures var front, val := sorted[..|sorted| - 1], sorted[|sorted| - 1];
            && Sorted(front) && MergeAll(front) != []
            && MergeAll(front)[|MergeAll(front)| - 1].begin <= MergeAll(front)[|MergeAll(front)| - 1].end <= val
            && MergeAll(sorted) == Merge(MergeAll(front), val)
            && sorted == front + [val]
  {
    hide Merge;
  }

  lemma {:induction false} MergeAllIsCanonical(sorted: seq<nat>)
    requires Sorted(sorted)
    ensures Canonical(MergeAll(sorted)) && SamePorts(Expand(MergeAll(sorted)), sorted)
  {
    if |sorted| == 0 {
    } else if |sorted| == 1 {
      assert sorted == [sorted[0]];
      OnePort(sorted[0]);
    } else {
      hide MergeAll, Merge, Expand, Canonical, SamePorts, Sorted;
      var front, val := sorted[..|sorted| - 1], sorted[|sorted| - 1];
      LastMerge(sorted);
      MergeAllIsCanonical(front);
      MergeKeepsPorts(MergeAll(front), val);
      SameAppended(Expand(MergeAll(sorted)), Expand(MergeAll(front)), front, val);
    }
  }

  lemma SameMultisetSamePorts(s: seq<nat>, t: seq<nat>)
    requires multiset(s) == multiset(t)
    ensures SamePorts(s, t) && |s| == |t|
  {
    assert |multiset(s)| == |s| && |multiset(t)| == |t|;
    forall p ensures p in s <==> p in t {
      assert p in s <==> p in multiset(s);
      assert p in t <==> p in multiset(t);
    }
  }

  /** RangesOf yields the canonical form of exactly its ports, and nothing else does. */
  lemma RangesOfIsTheCanonicalForm(ports: seq<nat>, ranges: seq<PortRange>)
    ensures ranges == RangesOf(ports) <==> Canonical(ranges) && SamePorts(Expand(ranges), ports)
  {
    var sorted := SortPorts(ports);
    MergeAllIsCanonical(sorted);
    SameMultisetSamePorts(sorted, ports);
    if Canonical(ranges) && SamePorts(Expand(ranges), ports) {
      CanonicalUnique(ranges, RangesOf(ports));
    }
  }

  // ---------- the two operations ----------

  method RangesToArray(ranges: seq<PortRange>) returns (ports: seq<nat>)
    ensures ports == Expand(ranges)
  {
    ports := [];
    for k := 0 to |ranges|
      invariant ports == Expand(ranges[..k])
    {
      var r := ranges[k];
      var temp := new nat[r.end + 1 - r.begin];
      var i := r.begin;
      while i <= r.end
        invariant r.begin <= i <= r.end + 1
        invariant forall j :: 0 <= j < i - r.begin ==> temp[j] == r.begin + j
      {
        temp[i - r.begin] := i;
        i := i + 1;
      }
      assert temp[..] == RangePorts(r);
      assert ranges[..k + 1][..k] == ranges[..k];
      ports := ports + temp[..];
    }
    assert ranges[..|ranges|] == ranges;
  }

  method Swap(a: array<nat>, i: nat, j: nat)
    requires i < a.Length && j < a.Length
    modifies a
    ensures a[..] == old(a[..])[i := old(a[j])][j := old(a[i])]
    ensures multiset(a[..]) == multiset(old(a[..]))
  {
    a[i], a[j] := a[j], a[i];
  }

  /** sort.Sort of the standard library: any in-place sort will do. */
  method Sort(a: array<nat>)
    modifies a
    ensures Sorted(a[..]) && multiset(a[..]) == multiset(old(a[..]))
  {
    for i := 0 to a.Length
      invariant forall x, y :: 0 <= x < y < i ==> a[x] <= a[y]
      invariant multiset(a[..]) == multiset(old(a[..]))
    {
      var j := i;
      while j > 0 && a[j - 1] > a[j]
        invariant 0 <= j <= i
        invariant forall x, y :: 0 <= x < y <= i && y != j ==> a[x] <= a[y]
        invariant multiset(a[..]) == multiset(old(a[..]))
      {
        Swap(a, j - 1, j);
        j := j - 1;
      }
    }
  }

  lemma MergeAllStep(sorted: seq<nat>, k: nat)
    requires Sorted(sorted) && k < |sorted|
    ensures MergeAll(sorted[..k + 1]) ==
            if k == 0 then [Range(sorted[0], sorted[0])] else Merge(MergeAll(sorted[..k]), sorted[k])
  {
    assert sorted[..k + 1][..k] == sorted[..k];
  }

  lemma SortedRanges(sorted: seq<nat>, ports: seq<nat>)
    requires Sorted(sorted) && multiset(sorted) == multiset(ports)
    ensures MergeAll(sorted) == RangesOf(ports)
  {
    MergeAllIsCanonical(sorted);
    SameMultisetSamePorts(sorted, ports);
    RangesOfIsTheCanonicalForm(ports, MergeAll(sorted));
  }

  /** Sorts the slice in place and merges runs; the result is the canonical form of exactly the input's ports. */
  method ArrayToRanges(ports: array<nat>) returns (ret: seq<PortRange>)
    modifies ports
    ensures Sorted(ports[..]) && multiset(ports[..]) == multiset(old(ports[..]))
    ensures ret == RangesOf(old(ports[..]))
  {
    hide Expand, SortPorts, RangesOf;
    ghost var input := ports[..];
    Sort(ports);
    ghost var sorted := ports[..];
    SortedRanges(sorted, input);
    if ports.Length == 0 {
      return [];
    }
    ret := [Range(ports[0], ports[0])];
    for k := 0 to ports.Length
      invariant ports[..] == sorted && ret != []
      invariant ret == if k == 0 then [Range(ports[0], ports[0])] else MergeAll(sorted[..k])
    {
      var val, last := ports[k], ret[|ret| - 1];
      MergeAllStep(sorted, k);
      if val > last.end + 1 {
        ret := ret + [Range(val, val)];
      } else {
        ret := ret[|ret| - 1 := last.(end := val)];
      }
    }
    assert sorted[..ports.Length] == sorted;
  }

  /** Compressing undoes expanding on canonical lists. */
  lemma CodecRoundTrip(ranges: seq<PortRange>)
    requires Canonical(ranges)
    ensures RangesOf(Expand(ranges)) == ranges
  {
    RangesOfIsTheCanonicalForm(Expand(ranges), ranges);
  }

  lemma {:induction false} DistinctCount(s: seq<nat>, p: nat)
    requires Distinct(s)
    ensures multiset(s)[p] == if p in s then 1 else 0
  {
    if s != [] {
      var n := |s| - 1;
      DistinctCount(s[..n], p);
      assert s == s[..n] + [s[n]];
    }
  }

  /** Expanding after compressing gives the input sorted and without duplicates; distinct ports are only reordered. */
  lemma CompressThenExpand(ports: seq<nat>)
    ensures Canonical(RangesOf(ports))
    ensures StrictlyIncreasing(Expand(RangesOf(ports))) && SamePorts(Expand(RangesOf(ports)), ports)
    ensures Distinct(ports) ==> multiset(Expand(RangesOf(ports))) == multiset(ports)
  {
    RangesOfIsTheCanonicalForm(ports, RangesOf(ports));
    CanonicalExpansion(RangesOf(ports));
    if Distinct(ports) {
      var s := Expand(RangesOf(ports));
      var x: multiset<nat>, y: multiset<nat> := multiset(s), multiset(ports);
      forall p: nat ensures x[p] == y[p] {
        DistinctCount(s, p);
        DistinctCount(ports, p);
      }
    }
  }
}
