/**
  The ordered index: parallel arrays of values and owners per key, scanned by bisection. String order is by code
  point, as Python compares strings.
*/
module BTreeIndex {
  import opened Wrappers
  import opened Grouping
  import opened Ordering

  datatype Pair = Pair(value: string, owner: nat)

  /** `(value, ordinal)` tuples in ascending order. */
  predicate Ascending(a: Pair, b: Pair) {
    if a.value != b.value then StringLeq(a.value, b.value) else a.owner <= b.owner
  }

  /** Values descending, but owners still ascending inside equal values. */
  predicate Descending(a: Pair, b: Pair) {
    if a.value != b.value then StringLeq(b.value, a.value) else a.owner <= b.owner
  }

  lemma PairsAreOrdered()
    ensures TotalOrder(Ascending) && TotalOrder(Descending)
  {
    StringsAreOrdered();
    hide StringLeq;
    forall a: Pair, b: Pair
      ensures Tied(Ascending, a, b) ==> a == b
      ensures Tied(Descending, a, b) ==> a == b
    {
      assert StringLeq(a.value, b.value) && StringLeq(b.value, a.value) ==> Tied(StringLeq, a.value, b.value);
    }
    forall a: Pair, b: Pair, c: Pair
      ensures Ascending(a, b) && Ascending(b, c) ==> Ascending(a, c)
      ensures Descending(a, b) && Descending(b, c) ==> Descending(a, c)
    {
      PairsTransit(a, b, c);
    }
  }

  lemma PairsTransit(a: Pair, b: Pair, c: Pair)
    ensures Ascending(a, b) && Ascending(b, c) ==> Ascending(a, c)
    ensures Descending(a, b) && Descending(b, c) ==> Descending(a, c)
  {
    hide StringLeq;
    if a.value != b.value || b.value != c.value {
      if Ascending(a, b) && Ascending(b, c) { StringsTransit(a.value, b.value, c.value); }
      if Descending(a, b) && Descending(b, c) { StringsTransit(c.value, b.value, a.value); }
    }
  }

  // ---- Encoding integers -----------------------------------------------------------------

  const WIDTH := 20

  function Pow10(n: nat): (power: nat)
    ensures power >= 1
  {
    if n == 0 then 1 else 10 * Pow10(n - 1)
  }

  function Digit(d: nat): char
    requires d < 10
  {
    ['0', '1', '2', '3', '4', '5', '6', '7', '8', '9'][d]
  }

  function Digits(n: nat, width: nat): (s: string)
    ensures |s| == width
  {
    if width == 0 then [] else Digits(n / 10, width - 1) + [Digit(n % 10)]
  }

  /** The number of digits of `n`, but at least `width`. */
  function DigitsNeeded(n: nat, width: nat): nat
    decreases if n < Pow10(width) then 0 else 1 + n - Pow10(width)
  {
    if n < Pow10(width) then width else DigitsNeeded(n, width + 1)
  }

  function Padded(n: nat, width: nat): string {
    Digits(n, DigitsNeeded(n, width))
  }

  /** A number zero-padded to twenty characters; longer numbers take the digits they need. */
  function Encode(n: nat): string {
    Padded(n, WIDTH)
  }

  lemma {:induction false} JoinLess(a: string, b: string, x: char, y: char)
    requires |a| == |b|
    ensures StringLess(a, b) ==> StringLess(a + [x], b + [y])
    ensures a == b ==> (StringLess(a + [x], b + [y]) <==> x < y)
    decreases |a|
  {
    if a == [] {
      assert [x][1..] == [] && [y][1..] == [];
    } else {
      JoinLess(a[1..], b[1..], x, y);
      assert (a + [x])[1..] == a[1..] + [x] && (b + [y])[1..] == b[1..] + [y];
      assert a == [a[0]] + a[1..] && b == [b[0]] + b[1..];
    }
  }

  lemma {:induction false} DigitsKeepOrder(a: nat, b: nat, width: nat)
    requires a < b < Pow10(width)
    ensures StringLess(Digits(a, width), Digits(b, width))
    decreases width
  {
    if a / 10 < b / 10 {
      DigitsKeepOrder(a / 10, b / 10, width - 1);
    }
    JoinLess(Digits(a / 10, width - 1), Digits(b / 10, width - 1), Digit(a % 10), Digit(b % 10));
  }

  /** Below the bound the encoding keeps the order of numbers. */
  ghost predicate KeepsOrderBelow(bound: nat) {
    forall a: nat, b: nat :: a < bound && b < bound ==> (a < b <==> StringLess(Encode(a), Encode(b)))
  }

  lemma {:induction false} TopDigit(n: nat, width: nat)
    requires width > 0 && 9 * Pow10(width - 1) <= n < Pow10(width)
    ensures Digits(n, width)[0] == '9'
    decreases width
  {
    if width > 1 {
      TopDigit(n / 10, width - 1);
    }
  }

  lemma {:induction false} LowDigit(n: nat, width: nat)
    requires width > 0 && Pow10(width - 1) <= n < 2 * Pow10(width - 1)
    ensures Digits(n, width)[0] == '1'
    decreases width
  {
    if width > 1 {
      LowDigit(n / 10, width - 1);
    }
  }

  lemma WideTopDigit(width: nat)
    ensures DigitsNeeded(Pow10(width), width) == width + 1
    ensures Digits(Pow10(width), width + 1)[0] == '1'
  {
    LowDigit(Pow10(width), width + 1);
  }

  lemma NineSortsAfterOne(width: nat)
    requires width > 0
    ensures !StringLess(Digits(Pow10(width) - 1, width), Digits(Pow10(width), width + 1))
  {
    hide Pow10, Digits, StringLess, DigitsNeeded;
    NinesAreHigh(width);
    WideTopDigit(width);
    TopDigit(Pow10(width) - 1, width);
    HeadsDecide(Digits(Pow10(width) - 1, width), Digits(Pow10(width), width + 1));
  }

  lemma NinesAreHigh(width: nat)
    requires width > 0
    ensures 9 * Pow10(width - 1) <= Pow10(width) - 1
  {
  }

  lemma HeadsDecide(s: string, t: string)
    requires s != [] && t != [] && s[0] > t[0]
    ensures !StringLess(s, t)
  {
  }

  lemma EncodeAtWidth(n: nat, width: nat)
    ensures n < Pow10(width) ==> DigitsNeeded(n, width) == width
  {
  }

  /** The first number that needs a twenty-first digit sorts before the last that does not. */
  lemma WideNumberSortsFirst()
    ensures !StringLess(Encode(Pow10(WIDTH) - 1), Encode(Pow10(WIDTH)))
  {
    hide Pow10, Digits, DigitsNeeded, StringLess;
    EncodeAtWidth(Pow10(WIDTH) - 1, WIDTH);
    WideTopDigit(WIDTH);
    NineSortsAfterOne(WIDTH);
  }

  lemma PaddingKeepsOrder(a: nat, b: nat, width: nat)
    requires a < Pow10(width) && b < Pow10(width)
    ensures a < b <==> StringLess(Padded(a, width), Padded(b, width))
  {
    EncodeAtWidth(a, width);
    EncodeAtWidth(b, width);
    hide Pow10, Digits, DigitsNeeded, StringLeq;
    if a < b {
      DigitsKeepOrder(a, b, width);
    } else if b < a {
      DigitsKeepOrder(b, a, width);
      if StringLess(Padded(a, width), Padded(b, width)) {
        StringAntisymmetric(Padded(a, width), Padded(b, width));
      }
    }
  }

  /** Exactly up to twenty digits. */
  lemma EncodingKeepsOrderIff(bound: nat)
    ensures KeepsOrderBelow(bound) <==> bound <= Pow10(WIDTH)
  {
    hide Pow10, Padded;
    if bound <= Pow10(WIDTH) {
      forall a: nat, b: nat | a < bound && b < bound
        ensures a < b <==> StringLess(Encode(a), Encode(b))
      {
        PaddingKeepsOrder(a, b, WIDTH);
      }
    } else {
      WideNumberSortsFirst();
      var a, b := Pow10(WIDTH) - 1, Pow10(WIDTH);
      assert a < bound && b < bound && a < b && !StringLess(Encode(a), Encode(b));
    }
  }

  // ---- Prefixes ---------------------------------------------------------------------------

  /** Appended to a prefix to make an upper bound. */
  const CEILING: char := '\U{FFFF}'

  predicate InPrefixRange(prefix: string, v: string) {
    StringLeq(prefix, v) && StringLeq(v, prefix + [CEILING])
  }

  predicate BelowCeiling(suffix: string) {
    suffix == [] || suffix[0] < CEILING || suffix == [CEILING]
  }

  /** The range of a prefix holds exactly the values with that prefix that go on below the ceiling. */
  lemma {:induction false} PrefixRangeIff(prefix: string, v: string)
    ensures InPrefixRange(prefix, v) <==> prefix <= v && BelowCeiling(v[|prefix|..])
    decreases |prefix|
  {
    if prefix == [] {
      assert [] + [CEILING] == [CEILING];
      assert [CEILING][1..] == [];
      assert v[0..] == v;
      if v != [] && v[0] == CEILING {
        assert StringLeq(v[1..], []) <==> v[1..] == [];
        assert v == [v[0]] + v[1..];
      }
    } else {
      var rest, bound := prefix[1..], prefix + [CEILING];
      assert bound[1..] == rest + [CEILING] && prefix == [prefix[0]] + rest;
      if v != [] && v[0] == prefix[0] {
        PrefixRangeIff(rest, v[1..]);
        assert v == [v[0]] + v[1..];
        assert prefix <= v <==> rest <= v[1..];
        assert rest <= v[1..] ==> v[|prefix|..] == v[1..][|rest|..];
      }
    }
  }

  /** A prefix scan misses a value that continues past the ceiling. */
  lemma PrefixScanMisses(prefix: string)
    ensures prefix <= prefix + ['\U{1F600}'] && !InPrefixRange(prefix, prefix + ['\U{1F600}'])
  {
    var v := prefix + ['\U{1F600}'];
    PrefixRangeIff(prefix, v);
    assert v[|prefix|..] == ['\U{1F600}'];
  }

  // ---- Scanning ----------------------------------------------------------------------------

  /** Bounds are already encoded; an empty prefix is no prefix. */
  datatype RangeQuery = RangeQuery(
    low: Option<string>, high: Option<string>, prefix: string, descending: bool, allow: Option<set<nat>>)

  function Later(a: string, b: string): string {
    if StringLeq(a, b) then b else a
  }

  function Earlier(a: string, b: string): string {
    if StringLeq(a, b) then a else b
  }

  function LowBound(q: RangeQuery): Option<string> {
    if q.prefix == "" then q.low
    else if q.low.None? then Some(q.prefix)
    else Some(Later(q.low.value, q.prefix))
  }

  function HighBound(q: RangeQuery): Option<string> {
    if q.prefix == "" then q.high
    else if q.high.None? then Some(q.prefix + [CEILING])
    else Some(Earlier(q.high.value, q.prefix + [CEILING]))
  }

  predicate Within(low: Option<string>, high: Option<string>, v: string) {
    (low.Some? ==> StringLeq(low.value, v)) && (high.Some? ==> StringLeq(v, high.value))
  }

  /** What a query asks for: inclusive bounds, the range of the prefix, and the mask. */
  predicate Matches(q: RangeQuery, p: Pair) {
    && Within(q.low, q.high, p.value)
    && (q.prefix != "" ==> InPrefixRange(q.prefix, p.value))
    && (q.allow.Some? ==> p.owner in q.allow.value)
  }

  lemma BoundsSayTheSame(q: RangeQuery, p: Pair)
    ensures Matches(q, p) <==>
      Within(LowBound(q), HighBound(q), p.value) && (q.allow.Some? ==> p.owner in q.allow.value)
  {
    StringsAreOrdered();
    hide StringLeq;
  }

  function Values(ps: seq<Pair>): (values: seq<string>)
    ensures |values| == |ps| && forall i :: 0 <= i < |ps| ==> values[i] == ps[i].value
  {
    seq(|ps|, i requires 0 <= i < |ps| => ps[i].value)
  }

  function Owners(ps: seq<Pair>): (owners: seq<nat>)
    ensures |owners| == |ps| && forall i :: 0 <= i < |ps| ==> owners[i] == ps[i].owner
  {
    seq(|ps|, i requires 0 <= i < |ps| => ps[i].owner)
  }

  ghost predicate Ascends(values: seq<string>) {
    forall i, j :: 0 <= i <= j < |values| ==> StringLeq(values[i], values[j])
  }

  lemma SortedAscends(ps: seq<Pair>)
    requires Sorted(Ascending, ps)
    ensures Ascends(Values(ps))
  {
    StringsAreOrdered();
    forall i, j | 0 <= i <= j < |ps|
      ensures StringLeq(ps[i].value, ps[j].value)
    {
      if i < j {
        SortedPair(Ascending, ps, i, j);
      }
    }
  }

  lemma LeqLess(a: string, b: string, c: string)
    ensures StringLess(a, b) && StringLeq(b, c) ==> StringLess(a, c)
    ensures StringLeq(a, b) && StringLess(b, c) ==> StringLess(a, c)
  {
    StringsAreOrdered();
    hide StringLeq;
    if StringLeq(a, b) && StringLeq(b, c) && a == c {
      assert Tied(StringLeq, a, b);
    }
  }

  /** The first position in `[lo, hi]` whose value is not below `x`. */
  method BisectLeft(values: seq<string>, x: string, lo: nat, hi: nat) returns (i: nat)
    requires Ascends(values) && lo <= hi <= |values|
    ensures lo <= i <= hi
    ensures forall k :: lo <= k < i ==> StringLess(values[k], x)
    ensures forall k :: i <= k < hi ==> StringLeq(x, values[k])
  {
    hide StringLeq;
    var left, right := lo, hi;
    while left < right
      invariant lo <= left <= right <= hi
      invariant forall k :: lo <= k < left ==> StringLess(values[k], x)
      invariant forall k :: right <= k < hi ==> StringLeq(x, values[k])
    {
      var middle := (left + right) / 2;
      StringTotal(values[middle], x);
      if StringLess(values[middle], x) {
        forall k | lo <= k < middle + 1 ensures StringLess(values[k], x) { LeqLess(values[k], values[middle], x); }
        left := middle + 1;
      } else {
        forall k | middle <= k < hi ensures StringLeq(x, values[k]) { StringTransitive(x, values[middle], values[k]); }
        right := middle;
      }
    }
    i := left;
  }

  /** The first position whose value is above `x`. */
  method BisectRight(values: seq<string>, x: string) returns (i: nat)
    requires Ascends(values)
    ensures i <= |values|
    ensures forall k :: 0 <= k < i ==> StringLeq(values[k], x)
    ensures forall k :: i <= k < |values| ==> StringLess(x, values[k])
  {
    hide StringLeq;
    var left, right := 0, |values|;
    while left < right
      invariant 0 <= left <= right <= |values|
      invariant forall k :: 0 <= k < left ==> StringLeq(values[k], x)
      invariant forall k :: right <= k < |values| ==> StringLess(x, values[k])
    {
      var middle := (left + right) / 2;
      StringTotal(values[middle], x);
      if StringLess(x, values[middle]) {
        forall k | middle <= k < |values| ensures StringLess(x, values[k]) { LeqLess(x, values[middle], values[k]); }
        right := middle;
      } else {
        forall k | 0 <= k < middle + 1
          ensures StringLeq(values[k], x)
        {
          StringTransitive(values[k], values[middle], x);
        }
        left := middle + 1;
      }
    }
    i := left;
  }

  // ---- The answer to a query -----------------------------------------------------------------

  function InBounds(q: RangeQuery): Pair -> bool {
    (p: Pair) => Within(LowBound(q), HighBound(q), p.value)
  }

  function Masked(q: RangeQuery): Pair -> bool {
    (p: Pair) => q.allow.Some? ==> p.owner in q.allow.value
  }

  function Asked(q: RangeQuery): Pair -> bool {
    (p: Pair) => Matches(q, p)
  }

  function OrderOf(q: RangeQuery): (Pair, Pair) -> bool {
    if q.descending then Descending else Ascending
  }

  /** Filter the indexed pairs, then sort them: values in the order asked for, equal values by ascending owner. */
  function Answer(q: RangeQuery, pairs: seq<Pair>): seq<nat> {
    Owners(Sort(OrderOf(q), Filter(Asked(q), pairs)))
  }

  lemma WindowIsFilter(ps: seq<Pair>, q: RangeQuery, start: nat, end: nat)
    requires start <= |ps| && end <= |ps|
    requires forall k :: 0 <= k < |ps| ==>
      (start <= k <==> LowBound(q).Some? ==> StringLeq(LowBound(q).value, ps[k].value))
    requires forall k :: 0 <= k < |ps| ==>
      (k < end <==> HighBound(q).Some? ==> StringLeq(ps[k].value, HighBound(q).value))
    ensures Filter(InBounds(q), ps) == if start < end then ps[start..end] else []
  {
    if start < end {
      FilterIsSlice(InBounds(q), ps, start, end);
    } else {
      FilterIsSlice(InBounds(q), ps, 0, 0);
    }
  }

  /** Sorting what is in bounds and then applying the mask gives the answer. */
  lemma MaskLast(q: RangeQuery, pairs: seq<Pair>)
    ensures Filter(Masked(q), Sort(OrderOf(q), Filter(InBounds(q), pairs))) == Sort(OrderOf(q), Filter(Asked(q), pairs))
  {
    PairsAreOrdered();
    FilterSorts(OrderOf(q), Masked(q), Filter(InBounds(q), pairs));
    forall p | p in pairs
      ensures Asked(q)(p) == (Masked(q)(p) && InBounds(q)(p))
    {
      BoundsSayTheSame(q, p);
    }
    FilterBoth(Masked(q), InBounds(q), Asked(q), pairs);
  }

  function FilterOwners(owners: seq<nat>, allowed: set<nat>): seq<nat> {
    Filter((o: nat) => o in allowed, owners)
  }

  lemma {:induction false} MaskOwners(ps: seq<Pair>, q: RangeQuery)
    requires q.allow.Some?
    ensures FilterOwners(Owners(ps), q.allow.value) == Owners(Filter(Masked(q), ps))
    decreases |ps|
  {
    if ps != [] {
      var n := |ps| - 1;
      MaskOwners(ps[..n], q);
      assert Owners(ps)[..n] == Owners(ps[..n]);
      var kept := Filter(Masked(q), ps[..n]);
      assert Owners(kept + [ps[n]]) == Owners(kept) + [ps[n].owner];
    }
  }

  lemma {:induction false} MaskNothing(ps: seq<Pair>, q: RangeQuery)
    requires q.allow.None?
    ensures Filter(Masked(q), ps) == ps
    decreases |ps|
  {
    if ps != [] {
      MaskNothing(ps[..|ps| - 1], q);
      assert ps == ps[..|ps| - 1] + [ps[|ps| - 1]];
    }
  }

  // ---- Walking backwards by groups of equal values ----------------------------------------------

  /** The groups taken so far, as pairs: in descending order, and all above what is left. */
  ghost predicate Taken(ps: seq<Pair>, start: nat, end: nat, cursor: nat, taken: seq<Pair>)
    requires start <= cursor <= end <= |ps|
  {
    && Sorted(Descending, taken)
    && multiset(taken) == multiset(ps[cursor..end])
    && Above(ps, start, cursor, taken)
  }

  ghost predicate Above(ps: seq<Pair>, start: nat, cursor: nat, taken: seq<Pair>)
    requires start <= cursor <= |ps|
  {
    forall x, k :: x in taken && start <= k < cursor ==> StringLess(ps[k].value, x.value)
  }

  lemma GroupIsSorted(ps: seq<Pair>, first: nat, cursor: nat)
    requires Sorted(Ascending, ps) && first < cursor <= |ps|
    requires forall k :: first <= k < cursor ==> ps[k].value == ps[first].value
    ensures Sorted(Descending, ps[first..cursor])
    decreases cursor - first
  {
    var group := ps[first..cursor];
    if first + 1 < cursor {
      GroupIsSorted(ps, first + 1, cursor);
      assert group[1..] == ps[first + 1..cursor];
      forall x | x in group[1..]
        ensures Descending(group[0], x)
      {
        var k :| first < k < cursor && ps[k] == x;
        SortedPair(Ascending, ps, first, k);
      }
    } else {
      assert group[1..] == [];
    }
  }

  lemma LevelPair(a: Pair, b: Pair)
    requires Ascending(a, b) && StringLeq(b.value, a.value)
    ensures a.value == b.value
  {
    hide StringLeq;
    if a.value != b.value {
      StringAntisymmetric(a.value, b.value);
    }
  }

  lemma GroupIsLevel(ps: seq<Pair>, first: nat, cursor: nat)
    requires Sorted(Ascending, ps) && first < cursor <= |ps|
    requires forall k :: first <= k < cursor ==> StringLeq(ps[cursor - 1].value, ps[k].value)
    ensures forall k :: first <= k < cursor ==> ps[k].value == ps[cursor - 1].value
  {
    hide StringLeq, Sorted, Ascending;
    forall k | first <= k < cursor
      ensures ps[k].value == ps[cursor - 1].value
    {
      if k < cursor - 1 {
        SortedPair(Ascending, ps, k, cursor - 1);
        LevelPair(ps[k], ps[cursor - 1]);
      }
    }
  }

  /** A group of equal values below everything taken goes after it. */
  lemma GroupJoins(taken: seq<Pair>, group: seq<Pair>, value: string)
    requires Sorted(Descending, taken) && Sorted(Descending, group)
    requires forall x :: x in taken ==> StringLess(value, x.value)
    requires forall y :: y in group ==> y.value == value
    ensures Sorted(Descending, taken + group)
  {
    hide StringLeq;
    SortedJoins(Descending, taken, group);
  }

  lemma TakeGroup(ps: seq<Pair>, start: nat, end: nat, cursor: nat, taken: seq<Pair>, first: nat)
    requires Sorted(Ascending, ps) && start <= first < cursor <= end <= |ps| && Taken(ps, start, end, cursor, taken)
    requires forall k :: start <= k < first ==> StringLess(ps[k].value, ps[cursor - 1].value)
    requires forall k :: first <= k < cursor ==> StringLeq(ps[cursor - 1].value, ps[k].value)
    ensures Taken(ps, start, end, first, taken + ps[first..cursor])
  {
    var group, value := ps[first..cursor], ps[cursor - 1].value;
    hide StringLess, StringLeq, Sorted, Ascending, Descending, Above;
    GroupIsLevel(ps, first, cursor);
    GroupIsSorted(ps, first, cursor);
    assert forall y :: y in group ==> y.value == value;
    GroupJoins(taken, group, value);
    SlicesJoin(ps, first, cursor, end, taken);
  }

  lemma SlicesJoin(ps: seq<Pair>, first: nat, cursor: nat, end: nat, taken: seq<Pair>)
    requires first <= cursor <= end <= |ps| && multiset(taken) == multiset(ps[cursor..end])
    ensures multiset(taken + ps[first..cursor]) == multiset(ps[first..end])
  {
    assert ps[first..end] == ps[first..cursor] + ps[cursor..end];
  }

  lemma AllTakenIsSort(ps: seq<Pair>, start: nat, end: nat, taken: seq<Pair>)
    requires start <= end <= |ps| && Taken(ps, start, end, start, taken)
    ensures taken == Sort(Descending, ps[start..end])
  {
    PairsAreOrdered();
    SortedIsSort(Descending, taken, ps[start..end]);
  }

  lemma NothingTaken(ps: seq<Pair>, start: nat, end: nat)
    requires start <= end <= |ps|
    ensures Taken(ps, start, end, end, [])
  {
    assert ps[end..end] == [];
  }

  /** The loop of a descending scan. */
  method Backwards(values: seq<string>, owners: seq<nat>, start: nat, end: nat, ghost ps: seq<Pair>)
    returns (selected: seq<nat>)
    requires Sorted(Ascending, ps) && values == Values(ps) && owners == Owners(ps) && start <= end <= |ps|
    ensures selected == Owners(Sort(Descending, ps[start..end]))
  {
    hide Taken, Ascends, Sorted, Sort, StringLeq;
    SortedAscends(ps);
    selected := [];
    var cursor := end;
    ghost var taken: seq<Pair> := [];
    NothingTaken(ps, start, end);
    while cursor > start
      invariant start <= cursor <= end
      invariant Taken(ps, start, end, cursor, taken) && selected == Owners(taken)
    {
      var first := BisectLeft(values, values[cursor - 1], start, cursor);
      assert first < cursor;
      TakeGroup(ps, start, end, cursor, taken, first);
      selected := selected + owners[first..cursor];
      taken := taken + ps[first..cursor];
      cursor := first;
    }
    AllTakenIsSort(ps, start, end, taken);
  }

  // ---- The serialized body -----------------------------------------------------------------

  datatype Body = Body(values: map<string, seq<string>>, owners: map<string, seq<nat>>)

  function Zip(values: seq<string>, owners: seq<nat>): (ps: seq<Pair>)
    requires |values| == |owners|
    ensures |ps| == |values| && Values(ps) == values && Owners(ps) == owners
  {
    seq(|values|, i requires 0 <= i < |values| => Pair(values[i], owners[i]))
  }

  /** Two arrays per key, of one length, that ascend as pairs. */
  ghost predicate Loadable(body: Body) {
    && body.values.Keys == body.owners.Keys
    && forall key :: key in body.values ==>
         |body.values[key]| == |body.owners[key]| && Sorted(Ascending, Zip(body.values[key], body.owners[key]))
  }

  ghost function PairsIn(body: Body): map<string, seq<Pair>>
    requires Loadable(body)
  {
    map key | key in body.values :: Zip(body.values[key], body.owners[key])
  }

  function DumpOf(indexed: map<string, seq<Pair>>): Body {
    Body(
      map key | key in indexed :: Values(Sort(Ascending, indexed[key])),
      map key | key in indexed :: Owners(Sort(Ascending, indexed[key])))
  }

  lemma ZipReturns(ps: seq<Pair>)
    ensures Zip(Values(ps), Owners(ps)) == ps
  {
  }

  /** A dump can always be loaded, and holds each key's pairs in ascending order. */
  lemma DumpIsLoadable(indexed: map<string, seq<Pair>>)
    ensures Loadable(DumpOf(indexed))
    ensures PairsIn(DumpOf(indexed)) == map key | key in indexed :: Sort(Ascending, indexed[key])
  {
    hide Sort, Sorted;
    forall key | key in indexed
      ensures Sorted(Ascending, Sort(Ascending, indexed[key]))
      ensures Zip(Values(Sort(Ascending, indexed[key])), Owners(Sort(Ascending, indexed[key])))
           == Sort(Ascending, indexed[key])
    {
      SortIsAscending(indexed[key]);
      ZipReturns(Sort(Ascending, indexed[key]));
    }
  }

  /** Dumping what was loaded gives the body that was loaded. */
  lemma DumpOfLoadIsDump(body: Body)
    requires Loadable(body)
    ensures DumpOf(PairsIn(body)) == body
  {
    hide Sort, Sorted;
    forall key | key in body.values
      ensures Sort(Ascending, PairsIn(body)[key]) == PairsIn(body)[key]
    {
      SortOfSorted(Ascending, PairsIn(body)[key]);
    }
    assert DumpOf(PairsIn(body)).values == body.values && DumpOf(PairsIn(body)).owners == body.owners;
  }

  /** What a scan answers depends on nothing but the bag of pairs. */
  lemma AnswerForgetsOrder(q: RangeQuery, p: seq<Pair>, r: seq<Pair>)
    requires multiset(p) == multiset(r)
    ensures Answer(q, p) == Answer(q, r)
  {
    hide Sort, Filter, Asked;
    PairsAreOrdered();
    forall x
      ensures multiset(Filter(Asked(q), p))[x] == multiset(Filter(Asked(q), r))[x]
    {
      FilterCounts(Asked(q), p, x);
      FilterCounts(Asked(q), r, x);
    }
    SortForgetsOrder(OrderOf(q), Filter(Asked(q), p), Filter(Asked(q), r));
  }

  /** After a reload every scan answers as before. */
  lemma ReloadAnswersAlike(indexed: map<string, seq<Pair>>, key: string, q: RangeQuery)
    requires key in indexed
    ensures Loadable(DumpOf(indexed)) && PairsIn(DumpOf(indexed)).Keys == indexed.Keys
    ensures Answer(q, PairsIn(DumpOf(indexed))[key]) == Answer(q, indexed[key])
  {
    hide Answer, Sort, Loadable;
    DumpIsLoadable(indexed);
    SortPermutes(Ascending, indexed[key]);
    AnswerForgetsOrder(q, Sort(Ascending, indexed[key]), indexed[key]);
  }

  /** Blocks in any order leave the same dump. */
  lemma BuildsDumpAlike(p: seq<Keyed<string, Pair>>, q: seq<Keyed<string, Pair>>)
    requires multiset(p) == multiset(q)
    ensures DumpOf(Grouped(p)) == DumpOf(Grouped(q))
  {
    hide Grouped, Sort;
    forall key
      ensures key in Grouped(p) <==> key in Grouped(q)
      ensures key in Grouped(p) && key in Grouped(q) ==>
        Sort(Ascending, Grouped(p)[key]) == Sort(Ascending, Grouped(q)[key])
    {
      GroupedPermutes(p, q, key);
      if key in Grouped(p) && key in Grouped(q) {
        ArraysForgetOrder(Grouped(p)[key], Grouped(q)[key]);
      }
    }
    var a, b := DumpOf(Grouped(p)), DumpOf(Grouped(q));
    assert a.values == b.values && a.owners == b.owners;
  }

  class Index {
    var pending: map<string, seq<Pair>>
    var values: map<string, seq<string>>
    var owners: map<string, seq<nat>>
    ghost var indexed: map<string, seq<Pair>>

    /** The parallel arrays hold, in ascending order, the pairs that were applied. */
    ghost predicate Valid()
      reads this
    {
      && values.Keys == indexed.Keys && owners.Keys == indexed.Keys
      && forall key :: key in indexed ==>
           && values[key] == Values(Sort(Ascending, indexed[key]))
           && owners[key] == Owners(Sort(Ascending, indexed[key]))
    }

    constructor ()
      ensures Valid() && pending == map[] && indexed == map[]
    {
      pending, values, owners, indexed := map[], map[], map[], map[];
    }

    method Reset()
      modifies this
      ensures Valid() && pending == map[] && indexed == map[]
    {
      pending, values, owners, indexed := map[], map[], map[], map[];
    }

    /** One ordered key of one block, already encoded. */
    method Apply(key: string, value: string, ordinal: nat)
      modifies `pending
      ensures pending == Add(old(pending), key, Pair(value, ordinal))
      ensures forall entries :: old(pending) == Grouped(entries) ==>
        pending == Grouped(entries + [Keyed(key, Pair(value, ordinal))])
    {
      forall entries | pending == Grouped(entries)
        ensures Grouped(entries + [Keyed(key, Pair(value, ordinal))]) == Add(pending, key, Pair(value, ordinal))
      {
        GroupedGrows(entries, Keyed(key, Pair(value, ordinal)));
      }
      pending := Add(pending, key, Pair(value, ordinal));
    }

    /** Sort each key's pairs into the parallel arrays. */
    method OnBuildEnd()
      requires Valid() && indexed == map[]
      modifies this
      ensures Valid() && indexed == old(pending) && pending == map[]
    {
      values := map key | key in pending :: Values(Sort(Ascending, pending[key]));
      owners := map key | key in pending :: Owners(Sort(Ascending, pending[key]));
      indexed := pending;
      pending := map[];
    }

    function Dump(): (body: Body)
      reads this
      ensures Valid() ==> body == DumpOf(indexed)
    {
      Body(values, owners)
    }

    /** Restore a dumped body; the pairs it answers for are read off its arrays. */
    method Load(body: Body)
      requires Loadable(body)
      modifies this
      ensures Valid() && Dump() == body && indexed == PairsIn(body) && pending == map[]
    {
      DumpOfLoadIsDump(body);
      pending, values, owners, indexed := map[], body.values, body.owners, PairsIn(body);
    }

    ghost function PairsOf(key: string): seq<Pair>
      reads this
    {
      if key in indexed then indexed[key] else []
    }

    /** Scan one key: exactly the pairs asked for, in the order asked for. */
    method Scan(key: string, q: RangeQuery) returns (selected: seq<nat>)
      requires Valid()
      ensures selected == Answer(q, PairsOf(key))
    {
      hide Sort, Sorted, Filter;
      ghost var pairs := PairsOf(key);
      ghost var ps := Sort(Ascending, pairs);
      assert key in indexed <==> key in values.Keys && key in owners.Keys;
      if key !in values || values[key] == [] || key !in owners || owners[key] == [] {
        NothingAnswers(q, pairs);
        return [];
      }
      selected := ScanArrays(values[key], owners[key], q, pairs);
    }
  }

  lemma NothingAnswers(q: RangeQuery, pairs: seq<Pair>)
    requires pairs == [] || |Sort(Ascending, pairs)| == 0
    ensures Answer(q, pairs) == []
  {
    SortPermutes(Ascending, pairs);
    assert |multiset(pairs)| == 0;
    assert pairs == [];
  }

  lemma SortIsAscending(pairs: seq<Pair>)
    ensures Sorted(Ascending, Sort(Ascending, pairs)) && Ascends(Values(Sort(Ascending, pairs)))
  {
    PairsAreOrdered();
    SortSorts(Ascending, pairs);
    SortedAscends(Sort(Ascending, pairs));
  }

  /** The two bisections find the window of the bounds. */
  method Window(values: seq<string>, q: RangeQuery, ghost ps: seq<Pair>) returns (start: nat, end: nat)
    requires values == Values(ps) && Ascends(values)
    ensures start <= |ps| && end <= |ps|
    ensures Filter(InBounds(q), ps) == if start < end then ps[start..end] else []
  {
    hide Filter, Ascends, StringLeq, InBounds;
    var low, high := LowBound(q), HighBound(q);
    start, end := 0, |values|;
    if low.Some? {
      start := BisectLeft(values, low.value, 0, |values|);
    }
    if high.Some? {
      end := BisectRight(values, high.value);
    }
    forall k | 0 <= k < |ps|
      ensures start <= k <==> low.Some? ==> StringLeq(low.value, ps[k].value)
      ensures k < end <==> high.Some? ==> StringLeq(ps[k].value, high.value)
    {
      if low.Some? && k < start {
        NotBoth(ps[k].value, low.value);
      }
      if high.Some? && k >= end {
        NotBoth(high.value, ps[k].value);
      }
    }
    WindowIsFilter(ps, q, start, end);
  }

  lemma NotBoth(a: string, b: string)
    ensures StringLess(a, b) ==> !StringLeq(b, a)
  {
    if StringLess(a, b) && StringLeq(b, a) {
      StringAntisymmetric(a, b);
    }
  }

  /** Whatever the window, its pairs in the order asked for are the sort of what is in bounds. */
  lemma WindowIsSort(q: RangeQuery, pairs: seq<Pair>, window: seq<Pair>)
    requires window == Filter(InBounds(q), Sort(Ascending, pairs))
    ensures Sort(OrderOf(q), window) == Sort(OrderOf(q), Filter(InBounds(q), pairs))
    ensures window == Sort(Ascending, Filter(InBounds(q), pairs))
    ensures Sort(Ascending, window) == window
  {
    PairsAreOrdered();
    FilterSorts(Ascending, InBounds(q), pairs);
    SortPermutes(Ascending, Filter(InBounds(q), pairs));
    SortForgetsOrder(OrderOf(q), window, Filter(InBounds(q), pairs));
    SortSorts(Ascending, Filter(InBounds(q), pairs));
    SortOfSorted(Ascending, window);
  }

  method ScanArrays(values: seq<string>, owners: seq<nat>, q: RangeQuery, ghost pairs: seq<Pair>)
    returns (selected: seq<nat>)
    requires values == Values(Sort(Ascending, pairs)) && owners == Owners(Sort(Ascending, pairs))
    ensures selected == Answer(q, pairs)
  {
    hide Sort, Sorted, Filter, Ascends, InBounds, Masked, Asked;
    ghost var ps := Sort(Ascending, pairs);
    SortIsAscending(pairs);
    var start, end := Window(values, q, ps);
    ghost var window := Filter(InBounds(q), ps);
    WindowIsSort(q, pairs, window);
    MaskLast(q, pairs);
    if start >= end {
      EmptyWindow(q, pairs);
      return [];
    }
    if q.descending {
      selected := Backwards(values, owners, start, end, ps);
    } else {
      selected := owners[start..end];
      assert selected == Owners(window);
    }
    ghost var sorted := Sort(OrderOf(q), Filter(InBounds(q), pairs));
    assert selected == Owners(sorted);
    if q.allow.Some? {
      MaskOwners(sorted, q);
      selected := FilterOwners(selected, q.allow.value);
    } else {
      MaskNothing(sorted, q);
    }
  }

  lemma EmptyWindow(q: RangeQuery, pairs: seq<Pair>)
    requires Filter(InBounds(q), Sort(Ascending, pairs)) == []
    ensures Answer(q, pairs) == []
  {
    WindowIsSort(q, pairs, []);
    MaskLast(q, pairs);
    SortPermutes(Ascending, Filter(InBounds(q), pairs));
    assert |multiset(Filter(InBounds(q), pairs))| == 0;
    assert Filter(InBounds(q), pairs) == [];
  }

  /** The arrays depend on nothing but the bag of applied pairs, so blocks may be applied in any order. */
  lemma ArraysForgetOrder(p: seq<Pair>, q: seq<Pair>)
    requires multiset(p) == multiset(q)
    ensures Sort(Ascending, p) == Sort(Ascending, q)
  {
    PairsAreOrdered();
    SortForgetsOrder(Ascending, p, q);
  }
}
