/** Numeric domains: a nonempty union of at most two disjoint, non-adjacent
    signed intervals, widened to its hull when more pieces would be needed. */
module Ranges {
  import opened Int64
  import opened Ast
  import opened Interp
  import opened IntervalArith

  datatype Domain = Domain(first: Interval, second: Option<Interval>)

  predicate Nonempty(i: Interval) { i.lo <= i.hi }

  /** The canonical form every domain has. */
  predicate Canonical(d: Domain) {
    && Nonempty(d.first)
    && (d.second.Some? ==> Nonempty(d.second.value) && d.first.hi + 1 < d.second.value.lo)
  }

  predicate Has(d: Domain, x: int) {
    Within(x, d.first) || (d.second.Some? && Within(x, d.second.value))
  }

  function Single(lo: i64, hi: i64): Domain { Domain(Interval(lo, hi), None) }

  function Hull(d: Domain): Interval {
    Interval(d.first.lo, if d.second.Some? then d.second.value.hi else d.first.hi)
  }

  function Pieces(d: Domain): seq<Interval> {
    if d.second.Some? then [d.first, d.second.value] else [d.first]
  }

  /** Some piece holds x. */
  predicate In(ps: seq<Interval>, x: int) { exists p :: p in ps && Within(x, p) }

  lemma HasIn(d: Domain, x: int)
    ensures Has(d, x) <==> In(Pieces(d), x)
  {
    if Has(d, x) {
      assert Pieces(d)[0] == d.first;
      if !Within(x, d.first) {
        assert Pieces(d)[1] == d.second.value;
      }
    }
  }

  // ----- collecting pieces -----

  function DropEmpty(ps: seq<Interval>): (r: seq<Interval>)
    ensures forall i | 0 <= i < |r| :: Nonempty(r[i])
    ensures forall p :: p in r <==> p in ps && Nonempty(p)
    ensures |r| <= |ps|
  {
    if ps == [] then [] else (if Nonempty(ps[0]) then [ps[0]] else []) + DropEmpty(ps[1..])
  }

  predicate Before(p: Interval, q: Interval) { p.lo < q.lo || (p.lo == q.lo && p.hi <= q.hi) }

  predicate Ordered(ps: seq<Interval>) {
    forall i, j | 0 <= i < j < |ps| :: ps[i].lo <= ps[j].lo
  }

  function Insert(p: Interval, ps: seq<Interval>): (r: seq<Interval>)
    ensures forall q :: q in r <==> q == p || q in ps
    ensures |r| == |ps| + 1
  {
    if ps == [] then [p]
    else if Before(p, ps[0]) then [p] + ps
    else [ps[0]] + Insert(p, ps[1..])
  }

  function Sort(ps: seq<Interval>): (r: seq<Interval>)
    ensures forall q :: q in r <==> q in ps
    ensures |r| == |ps|
  {
    if ps == [] then [] else Insert(ps[0], Sort(ps[1..]))
  }

  lemma {:induction false} InsertOrdered(p: Interval, ps: seq<Interval>)
    requires Ordered(ps)
    ensures Ordered(Insert(p, ps))
  {
    if ps == [] {
    } else if Before(p, ps[0]) {
    } else {
      InsertOrdered(p, ps[1..]);
      var r := Insert(p, ps[1..]);
      forall j | 0 <= j < |r|
        ensures ps[0].lo <= r[j].lo
      {
        assert r[j] in r;
      }
    }
  }

  lemma {:induction false} SortOrdered(ps: seq<Interval>)
    ensures Ordered(Sort(ps))
  {
    if ps != [] {
      SortOrdered(ps[1..]);
      InsertOrdered(ps[0], Sort(ps[1..]));
    }
  }

  /** Adds one interval, in order, to the merged output. */
  function Extend(out: seq<Interval>, p: Interval): seq<Interval> {
    var n := |out|;
    if n > 0 && p.lo <= out[n - 1].hi + 1 then
      out[..n - 1] + [Interval(out[n - 1].lo, Int64.Max(out[n - 1].hi, p.hi))]
    else out + [p]
  }

  function MergeOnto(out: seq<Interval>, ps: seq<Interval>): seq<Interval>
    decreases |ps|
  {
    if ps == [] then out else MergeOnto(Extend(out, ps[0]), ps[1..])
  }

  /** Nonempty, disjoint, non-adjacent and increasing. */
  predicate Separate(ps: seq<Interval>) {
    && (forall i | 0 <= i < |ps| :: Nonempty(ps[i]))
    && (forall i, j | 0 <= i < j < |ps| :: ps[i].hi + 1 < ps[j].lo)
  }

  lemma InCons(ps: seq<Interval>, x: int)
    requires ps != []
    ensures In(ps, x) <==> Within(x, ps[0]) || In(ps[1..], x)
  {
    assert ps == [ps[0]] + ps[1..];
  }

  lemma {:induction false} MergeExact(out: seq<Interval>, ps: seq<Interval>, x: int)
    requires Separate(out) && Ordered(ps) && forall i | 0 <= i < |ps| :: Nonempty(ps[i])
    requires out != [] && ps != [] ==> out[|out| - 1].lo <= ps[0].lo
    ensures Separate(MergeOnto(out, ps))
    ensures In(MergeOnto(out, ps), x) <==> In(out, x) || In(ps, x)
    ensures ps != [] || out != [] ==> MergeOnto(out, ps) != []
    decreases |ps|
  {
    if ps != [] {
      var out' := Extend(out, ps[0]);
      ExtendExact(out, ps[0], x);
      MergeExact(out', ps[1..], x);
      InCons(ps, x);
    }
  }

  lemma ExtendExact(out: seq<Interval>, p: Interval, x: int)
    requires Separate(out) && Nonempty(p) && (out != [] ==> out[|out| - 1].lo <= p.lo)
    ensures Separate(Extend(out, p)) && Extend(out, p) != []
    ensures var e := Extend(out, p); e[|e| - 1].lo <= p.lo
    ensures In(Extend(out, p), x) <==> In(out, x) || Within(x, p)
  {
    var n := |out|;
    var e := Extend(out, p);
    if n > 0 && p.lo <= out[n - 1].hi + 1 {
      assert out == out[..n - 1] + [out[n - 1]];
      if Within(x, p) || Within(x, out[n - 1]) {
        assert Within(x, e[n - 1]);
      }
    } else if Within(x, p) {
      assert e[n] == p;
    }
  }

  function Merged(pieces: seq<Interval>): seq<Interval> { MergeOnto([], Sort(DropEmpty(pieces))) }

  lemma MergedExact(pieces: seq<Interval>, x: int)
    ensures Separate(Merged(pieces)) && |Merged(pieces)| <= |DropEmpty(pieces)|
    ensures Merged(pieces) == [] <==> DropEmpty(pieces) == []
    ensures In(Merged(pieces), x) <==> In(pieces, x)
  {
    var d := DropEmpty(pieces);
    var s := Sort(d);
    SortOrdered(d);
    assert forall i | 0 <= i < |s| :: s[i] in d;
    MergeExact([], s, x);
    MergeLength([], s);
    if In(pieces, x) {
      var p :| p in pieces && Within(x, p);
      assert p in s;
    }
  }

  lemma {:induction false} MergeLength(out: seq<Interval>, ps: seq<Interval>)
    ensures |MergeOnto(out, ps)| <= |out| + |ps|
    decreases |ps|
  {
    if ps != [] {
      MergeLength(Extend(out, ps[0]), ps[1..]);
    }
  }

  /** Widens a merged list to at most two pieces. */
  function Widen(m: seq<Interval>): Option<Domain> {
    if |m| == 0 then None
    else if |m| == 1 then Some(Domain(m[0], None))
    else if |m| == 2 then Some(Domain(m[0], Some(m[1])))
    else Some(Single(m[0].lo, m[|m| - 1].hi))
  }

  lemma WidenCovers(m: seq<Interval>, x: int)
    requires Separate(m)
    ensures Widen(m).Some? ==> Canonical(Widen(m).value)
    ensures In(m, x) ==> Widen(m).Some? && Has(Widen(m).value, x)
  {
    if |m| > 2 {
      assert m[0].hi + 1 < m[|m| - 1].lo;
    }
    if In(m, x) {
      var i :| 0 <= i < |m| && Within(x, m[i]);
      if |m| > 2 && 0 < i < |m| - 1 {
        assert m[0].hi + 1 < m[i].lo && m[i].hi + 1 < m[|m| - 1].lo;
      }
    }
  }

  /** The canonical domain of a list of pieces; None when all are empty. */
  function Collect(pieces: seq<Interval>): Option<Domain> { Widen(Merged(pieces)) }

  /** Collecting forms a canonical domain and loses no member. */
  lemma CollectCovers(pieces: seq<Interval>, x: int)
    ensures Collect(pieces).None? <==> DropEmpty(pieces) == []
    ensures Collect(pieces).Some? ==> Canonical(Collect(pieces).value)
    ensures In(pieces, x) ==> Collect(pieces).Some? && Has(Collect(pieces).value, x)
  {
    MergedExact(pieces, x);
    WidenCovers(Merged(pieces), x);
  }

  /** When two intervals suffice, collecting invents no member either. */
  lemma CollectTight(pieces: seq<Interval>, x: int)
    requires |DropEmpty(pieces)| <= 2
    ensures Collect(pieces).Some? && Has(Collect(pieces).value, x) ==> In(pieces, x)
  {
    MergedExact(pieces, x);
    var m := Merged(pieces);
    if |m| > 0 {
      assert m[0] in m && m[|m| - 1] in m;
    }
  }

  /** In every case the result stays inside the hull of the pieces. */
  lemma CollectInHull(pieces: seq<Interval>, x: int) returns (p: Interval, q: Interval)
    requires Collect(pieces).Some? && Has(Collect(pieces).value, x)
    ensures p in pieces && q in pieces && p.lo <= x <= q.hi
  {
    var m := Merged(pieces);
    MergedExact(pieces, m[0].lo);
    MergedExact(pieces, m[|m| - 1].hi);
    assert m[0] in m && m[|m| - 1] in m;
    assert In(m, m[0].lo) && In(m, m[|m| - 1].hi);
    p :| p in pieces && Within(m[0].lo, p);
    q :| q in pieces && Within(m[|m| - 1].hi, q);
  }

  /** The fixed-workspace form: fill, sort and merge one array of four slots. */
  method CollectInPlace(pieces: seq<Interval>) returns (r: Option<Domain>)
    requires |DropEmpty(pieces)| <= 4
    ensures r == Collect(pieces)
  {
    var sorted := new Interval[4](_ => Interval(0, 0));
    var len := Fill(sorted, pieces);
    var order := Sort(sorted[..len]);
    for i := 0 to len
      invariant sorted[..i] == order[..i]
    {
      sorted[i] := order[i];
    }
    assert sorted[..len] == order;
    var merged := MergeInPlace(sorted, len);
    r := Widen(sorted[..merged]);
  }

  /** Copies the nonempty pieces to the front of an array. */
  method Fill(a: array<Interval>, pieces: seq<Interval>) returns (len: nat)
    requires |DropEmpty(pieces)| <= a.Length
    modifies a
    ensures len <= a.Length && a[..len] == DropEmpty(pieces)
  {
    len := 0;
    for i := 0 to |pieces|
      invariant len <= a.Length && a[..len] == DropEmpty(pieces[..i])
    {
      FillStep(pieces, i);
      if pieces[i].lo <= pieces[i].hi {
        a[len] := pieces[i];
        len := len + 1;
        assert a[..len - 1] == DropEmpty(pieces[..i]);
      }
    }
    assert pieces[..|pieces|] == pieces;
  }

  lemma FillStep(pieces: seq<Interval>, i: nat)
    requires i < |pieces|
    ensures DropEmpty(pieces[..i + 1]) == DropEmpty(pieces[..i]) + (if Nonempty(pieces[i]) then [pieces[i]] else [])
    ensures |DropEmpty(pieces[..i + 1])| <= |DropEmpty(pieces)|
  {
    assert pieces[..i + 1][..i] == pieces[..i];
    DropEmptySnoc(pieces[..i + 1]);
    DropEmptyPrefix(pieces, i + 1);
  }

  /** Merges the sorted prefix of an array into its own front. */
  method MergeInPlace(a: array<Interval>, len: nat) returns (merged: nat)
    requires len <= a.Length
    modifies a
    ensures merged <= len && a[..merged] == MergeOnto([], old(a[..len]))
  {
    ghost var order := a[..len];
    merged := 0;
    for i := 0 to len
      invariant merged <= i && a[i..len] == order[i..]
      invariant MergeOnto(a[..merged], a[i..len]) == MergeOnto([], order)
    {
      MergeStep(a[..merged], a[i..len]);
      assert a[i..len][1..] == a[i + 1..len] == order[i + 1..];
      merged := Place(a, merged, i);
      assert a[i + 1..len] == order[i + 1..];
    }
  }

  /** One iteration: fold slot `i` into the merged front. */
  method Place(a: array<Interval>, merged: nat, i: nat) returns (n: nat)
    requires merged <= i < a.Length
    modifies a
    ensures n <= i + 1 && a[..n] == Extend(old(a[..merged]), old(a[i]))
    ensures forall j | i < j < a.Length :: a[j] == old(a[j])
  {
    var p := a[i];
    if merged > 0 && p.lo <= a[merged - 1].hi + 1 {
      a[merged - 1] := Interval(a[merged - 1].lo, Int64.Max(a[merged - 1].hi, p.hi));
      n := merged;
    } else {
      a[merged] := p;
      n := merged + 1;
    }
  }

  lemma MergeStep(out: seq<Interval>, ps: seq<Interval>)
    requires ps != []
    ensures MergeOnto(out, ps) == MergeOnto(Extend(out, ps[0]), ps[1..])
  {
  }

  lemma {:induction false} DropEmptySnoc(ps: seq<Interval>)
    requires ps != []
    ensures var n := |ps| - 1; DropEmpty(ps) == DropEmpty(ps[..n]) + (if Nonempty(ps[n]) then [ps[n]] else [])
  {
    if |ps| > 1 {
      DropEmptySnoc(ps[1..]);
      assert ps[..|ps| - 1][1..] == ps[1..][..|ps| - 2];
    }
  }

  lemma {:induction false} DropEmptyPrefix(ps: seq<Interval>, n: nat)
    requires n <= |ps|
    ensures |DropEmpty(ps[..n])| <= |DropEmpty(ps)|
    decreases |ps| - n
  {
    if n < |ps| {
      DropEmptyPrefix(ps, n + 1);
      assert ps[..n + 1][..n] == ps[..n];
      DropEmptySnoc(ps[..n + 1]);
    } else {
      assert ps[..n] == ps;
    }
  }

  // ----- operations on domains -----

  function Join(d: Domain, e: Domain): Domain
    requires Canonical(d)
  {
    assert Pieces(d)[0] in Pieces(d) + Pieces(e);
    CollectCovers(Pieces(d) + Pieces(e), d.first.lo);
    Collect(Pieces(d) + Pieces(e)).value
  }

  lemma JoinCovers(d: Domain, e: Domain, x: int)
    requires Canonical(d) && Canonical(e)
    ensures Canonical(Join(d, e))
    ensures Has(d, x) || Has(e, x) ==> Has(Join(d, e), x)
  {
    HasIn(d, x);
    HasIn(e, x);
    var ps := Pieces(d) + Pieces(e);
    if Has(d, x) || Has(e, x) {
      var p :| (p in Pieces(d) || p in Pieces(e)) && Within(x, p);
      assert p in ps;
    }
    CollectCovers(ps, x);
  }

  /** All pairs of pieces, row by row. */
  function Cross(d: Domain, e: Domain): seq<(Interval, Interval)> {
    Row(d.first, Pieces(e)) + if d.second.Some? then Row(d.second.value, Pieces(e)) else []
  }

  function Row(p: Interval, qs: seq<Interval>): seq<(Interval, Interval)> {
    seq(|qs|, i requires 0 <= i < |qs| => (p, qs[i]))
  }

  function MapPairs(ps: seq<(Interval, Interval)>,
      f: (Interval, Interval) -> Option<Interval>): (r: Option<seq<Interval>>)
    ensures r.Some? <==> forall i | 0 <= i < |ps| :: f(ps[i].0, ps[i].1).Some?
    ensures r.Some? ==> |r.value| == |ps|
    ensures r.Some? ==> forall i | 0 <= i < |ps| :: Some(r.value[i]) == f(ps[i].0, ps[i].1)
  {
    if ps == [] then Some([])
    else
      match f(ps[0].0, ps[0].1)
      case None => None
      case Some(i) => (match MapPairs(ps[1..], f) case None => None case Some(r) => Some([i] + r))
  }

  /** Applies `f` to every pair of pieces before widening, so a widened result
      never hides a refusal. */
  function Pairwise(d: Domain, e: Domain, f: (Interval, Interval) -> Option<Interval>): Option<Domain> {
    match MapPairs(Cross(d, e), f)
    case None => None
    case Some(ps) => Collect(ps)
  }

  /** A member pair lies in one pair of pieces, on which `f` was accepted, and
      whatever `f` allows there is a member of the result. */
  lemma PairwiseCovers(d: Domain, e: Domain, f: (Interval, Interval) -> Option<Interval>, x: int, y: int)
      returns (p: Interval, q: Interval)
    requires Canonical(d) && Canonical(e) && Pairwise(d, e, f).Some? && Has(d, x) && Has(e, y)
    ensures Canonical(Pairwise(d, e, f).value)
    ensures Within(x, p) && Within(y, q) && f(p, q).Some?
    ensures forall z | Within(z, f(p, q).value) :: Has(Pairwise(d, e, f).value, z)
  {
    p := if Within(x, d.first) then d.first else d.second.value;
    q := if Within(y, e.first) then e.first else e.second.value;
    var j := if Within(y, e.first) then 0 else 1;
    var c := Cross(d, e);
    var i := if Within(x, d.first) then j else |Pieces(e)| + j;
    assert c[i] == (p, q);
    var r := MapPairs(c, f).value;
    assert r[i] in r;
    CollectCovers(r, 0);
    forall z | Within(z, r[i])
      ensures Has(Pairwise(d, e, f).value, z)
    {
      CollectCovers(r, z);
    }
  }

  /** Under a total `f` on nonempty pieces the result exists and is canonical. */
  lemma PairwiseRefuses(d: Domain, e: Domain, f: (Interval, Interval) -> Option<Interval>)
    requires Canonical(d) && Canonical(e)
    requires forall p, q | f(p, q).Some? && Nonempty(p) && Nonempty(q) :: Nonempty(f(p, q).value)
    ensures Pairwise(d, e, f).None? ==> exists p, q | p in Pieces(d) && q in Pieces(e) :: f(p, q).None?
    ensures Pairwise(d, e, f).Some? ==> Canonical(Pairwise(d, e, f).value)
  {
    var c := Cross(d, e);
    assert c[0] == (d.first, e.first);
    if MapPairs(c, f).Some? {
      var r := MapPairs(c, f).value;
      assert r[0] in r && Nonempty(r[0]);
      CollectCovers(r, 0);
    } else {
      var i :| 0 <= i < |c| && f(c[i].0, c[i].1).None?;
      assert c[i].0 in Pieces(d) && c[i].1 in Pieces(e) by {
        assert Pieces(d)[0] == d.first;
        if d.second.Some? { assert Pieces(d)[1] == d.second.value; }
      }
    }
  }

  /** Interval arithmetic as a total operation on pieces. */
  function ArithOn(op: BinOp): (Interval, Interval) -> Option<Interval> {
    (p: Interval, q: Interval) => if Nonempty(p) && Nonempty(q) then Arithmetic(op, p, q) else None
  }

  function DomainArith(op: BinOp, d: Domain, e: Domain): Option<Domain> { Pairwise(d, e, ArithOn(op)) }

  /** Domain arithmetic is sound for every pair of members. */
  lemma DomainArithSound(op: BinOp, d: Domain, e: Domain, x: i64, y: i64)
    requires Canonical(d) && Canonical(e) && DomainArith(op, d, e).Some? && Has(d, x) && Has(e, y)
    ensures Canonical(DomainArith(op, d, e).value)
    ensures IsArith(op) && Defined(op, x, y) && Has(DomainArith(op, d, e).value, Exact(op, x, y))
  {
    var p, q := PairwiseCovers(d, e, ArithOn(op), x, y);
    ArithmeticSound(op, p, q, x, y);
  }

  /** A refused domain operation has a pair of members that really faults. */
  lemma DomainRefusalIsReal(op: BinOp, d: Domain, e: Domain) returns (x: i64, y: i64)
    requires Canonical(d) && Canonical(e) && IsArith(op) && DomainArith(op, d, e).None?
    ensures Has(d, x) && Has(e, y) && !Defined(op, x, y)
  {
    forall p, q | ArithOn(op)(p, q).Some? && Nonempty(p) && Nonempty(q)
      ensures Nonempty(ArithOn(op)(p, q).value)
    {
      ArithmeticSound(op, p, q, p.lo, q.lo);
    }
    PairwiseRefuses(d, e, ArithOn(op));
    var p, q :| p in Pieces(d) && q in Pieces(e) && ArithOn(op)(p, q).None?;
    x, y := RefusalIsReal(op, p, q);
    HasIn(d, x);
    HasIn(e, y);
  }

  function NegOn(): (Interval, Interval) -> Option<Interval> {
    (p: Interval, q: Interval) => if p.lo == MIN || p.hi < p.lo then None else Some(Interval(0 - p.hi, 0 - p.lo))
  }

  function AbsOn(): (Interval, Interval) -> Option<Interval> {
    (p: Interval, q: Interval) =>
      if p.lo == MIN || p.hi < p.lo then None
      else
        var (a, b) := (Int64.Abs(p.lo) as int, Int64.Abs(p.hi) as int);
        Some(Interval(if p.lo <= 0 <= p.hi then 0 else Int64.Min(a, b), Int64.Max(a, b)))
  }

  function MinOn(): (Interval, Interval) -> Option<Interval> {
    (p: Interval, q: Interval) => Some(Interval(Int64.Min(p.lo, q.lo), Int64.Min(p.hi, q.hi)))
  }

  function MaxOn(): (Interval, Interval) -> Option<Interval> {
    (p: Interval, q: Interval) => Some(Interval(Int64.Max(p.lo, q.lo), Int64.Max(p.hi, q.hi)))
  }

  function Mapped(d: Domain, f: (Interval, Interval) -> Option<Interval>): Option<Domain> {
    Pairwise(d, Single(0, 0), f)
  }

  lemma NegSound(d: Domain, x: i64)
    requires Canonical(d) && Mapped(d, NegOn()).Some? && Has(d, x)
    ensures x != MIN && Canonical(Mapped(d, NegOn()).value) && Has(Mapped(d, NegOn()).value, 0 - x)
  {
    var p, q := PairwiseCovers(d, Single(0, 0), NegOn(), x, 0);
  }

  lemma AbsSound(d: Domain, x: i64)
    requires Canonical(d) && Mapped(d, AbsOn()).Some? && Has(d, x)
    ensures x != MIN && Canonical(Mapped(d, AbsOn()).value) && Has(Mapped(d, AbsOn()).value, Int64.Abs(x))
  {
    var p, q := PairwiseCovers(d, Single(0, 0), AbsOn(), x, 0);
  }

  lemma MinMaxSound(d: Domain, e: Domain, x: i64, y: i64)
    requires Canonical(d) && Canonical(e) && Has(d, x) && Has(e, y)
    ensures Pairwise(d, e, MinOn()).Some? && Canonical(Pairwise(d, e, MinOn()).value)
    ensures Pairwise(d, e, MaxOn()).Some? && Canonical(Pairwise(d, e, MaxOn()).value)
    ensures Has(Pairwise(d, e, MinOn()).value, Int64.Min(x, y))
    ensures Has(Pairwise(d, e, MaxOn()).value, Int64.Max(x, y))
  {
    MinSound(d, e, x, y);
    MaxSound(d, e, x, y);
  }

  lemma MinSound(d: Domain, e: Domain, x: i64, y: i64)
    requires Canonical(d) && Canonical(e) && Has(d, x) && Has(e, y)
    ensures var r := Pairwise(d, e, MinOn()); r.Some? && Canonical(r.value) && Has(r.value, Int64.Min(x, y))
  {
    PairwiseRefuses(d, e, MinOn());
    var p, q := PairwiseCovers(d, e, MinOn(), x, y);
  }

  lemma MaxSound(d: Domain, e: Domain, x: i64, y: i64)
    requires Canonical(d) && Canonical(e) && Has(d, x) && Has(e, y)
    ensures var r := Pairwise(d, e, MaxOn()); r.Some? && Canonical(r.value) && Has(r.value, Int64.Max(x, y))
  {
    PairwiseRefuses(d, e, MaxOn());
    var p, q := PairwiseCovers(d, e, MaxOn(), x, y);
  }

  /** Both operands read the same scalar: add and multiply piece by piece. */
  function RepeatOn(op: BinOp): (Interval, Interval) -> Option<Interval> {
    (p: Interval, q: Interval) =>
      if !Nonempty(p) || Arithmetic(op, p, p).None? then None
      else
        var r := Arithmetic(op, p, p).value;
        Some(Interval(if op.Mul? && p.lo <= 0 <= p.hi then 0 else r.lo, r.hi))
  }

  function Repeated(op: BinOp, d: Domain): Option<Domain> {
    match op
    case Sub => Some(Single(0, 0))
    case Div => if Has(d, 0) then None else Some(Single(1, 1))
    case Mod => if Has(d, 0) then None else Some(Single(0, 0))
    case Add => Mapped(d, RepeatOn(op))
    case Mul => Mapped(d, RepeatOn(op))
    case _ => None
  }

  lemma SquareNonnegative(x: int)
    ensures x * x >= 0
  {
    MulMono(0, Int64.Abs(x), Int64.Abs(x));
  }

  lemma RepeatPieceSound(op: BinOp, p: Interval, q: Interval, x: i64)
    requires op.Add? || op.Mul?
    requires Within(x, p) && RepeatOn(op)(p, q).Some?
    ensures Defined(op, x, x) && Within(Exact(op, x, x), RepeatOn(op)(p, q).value)
  {
    ArithmeticSound(op, p, p, x, x);
    if op.Mul? {
      assert 0 <= Exact(op, x, x) by { SquareNonnegative(x); }
    }
  }

  lemma SelfQuotient(x: i64)
    requires x != 0
    ensures TruncDiv(x, x) == 1 && TruncMod(x, x) == 0
  {
    assert Int64.Abs(x) / Int64.Abs(x) == 1 && Int64.Abs(x) % Int64.Abs(x) == 0;
  }

  lemma RepeatedSound(op: BinOp, d: Domain, x: i64)
    requires Canonical(d) && Repeated(op, d).Some? && Has(d, x)
    ensures IsArith(op) && Defined(op, x, x)
    ensures Canonical(Repeated(op, d).value) && Has(Repeated(op, d).value, Exact(op, x, x))
  {
    if op.Add? || op.Mul? {
      var p, q := PairwiseCovers(d, Single(0, 0), RepeatOn(op), x, 0);
      RepeatPieceSound(op, p, q, x);
    } else if op.Div? || op.Mod? {
      SelfQuotient(x);
    }
  }

  // ----- refinement by comparisons -----

  /** The members of one piece satisfying `x op n`, as up to two intervals;
      bounds are computed beyond i64 and emptied pieces dropped. */
  function RestrictPiece(op: BinOp, p: Interval, n: i64): (r: seq<Interval>)
    ensures forall q :: q in r ==> Nonempty(q)
    ensures |r| <= 2
  {
    match op
    case Eq => Clip(Int64.Max(p.lo, n), Int64.Min(p.hi, n))
    case NotEq => Clip(p.lo, Int64.Min(p.hi, n - 1)) + Clip(Int64.Max(p.lo, n + 1), p.hi)
    case Lt => Clip(p.lo, Int64.Min(p.hi, n - 1))
    case LtEq => Clip(p.lo, Int64.Min(p.hi, n))
    case Gt => Clip(Int64.Max(p.lo, n + 1), p.hi)
    case GtEq => Clip(Int64.Max(p.lo, n), p.hi)
    case _ => []
  }

  function Clip(lo: int, hi: int): (r: seq<Interval>)
    requires lo >= MIN && hi <= MAX
    ensures |r| <= 1 && forall q :: q in r ==> Nonempty(q)
    ensures forall x: int :: In(r, x) <==> lo <= x <= hi
  {
    if lo <= hi then assert Interval(lo, hi) in [Interval(lo, hi)]; [Interval(lo, hi)] else []
  }

  lemma InAppend(ps: seq<Interval>, qs: seq<Interval>, x: int)
    ensures In(ps + qs, x) <==> In(ps, x) || In(qs, x)
  {
    if In(ps, x) {
      var p :| p in ps && Within(x, p);
      assert p in ps + qs;
    }
    if In(qs, x) {
      var p :| p in qs && Within(x, p);
      assert p in ps + qs;
    }
  }

  lemma RestrictPieceExact(op: BinOp, p: Interval, n: i64, x: int)
    requires IsComparison(op)
    ensures In(RestrictPiece(op, p, n), x) <==> Within(x, p) && Compare(op, x, n)
  {
    if op.NotEq? {
      InAppend(Clip(p.lo, Int64.Min(p.hi, n - 1)), Clip(Int64.Max(p.lo, n + 1), p.hi), x);
    }
  }

  function RestrictPieces(op: BinOp, d: Domain, n: i64): seq<Interval> {
    RestrictPiece(op, d.first, n) + if d.second.Some? then RestrictPiece(op, d.second.value, n) else []
  }

  /** Keeps the prior domain when a third piece would be needed. */
  function Restrict(op: BinOp, d: Domain, n: i64): Option<Domain> {
    var ps := RestrictPieces(op, d, n);
    if |ps| > 2 then Some(d) else Collect(ps)
  }

  lemma RestrictPiecesExact(op: BinOp, d: Domain, n: i64, x: int)
    requires IsComparison(op)
    ensures In(RestrictPieces(op, d, n), x) <==> Has(d, x) && Compare(op, x, n)
  {
    RestrictPieceExact(op, d.first, n, x);
    if d.second.Some? {
      RestrictPieceExact(op, d.second.value, n, x);
      InAppend(RestrictPiece(op, d.first, n), RestrictPiece(op, d.second.value, n), x);
    } else {
      assert RestrictPieces(op, d, n) == RestrictPiece(op, d.first, n);
    }
  }

  lemma DropNothing(ps: seq<Interval>)
    requires forall p :: p in ps ==> Nonempty(p)
    ensures DropEmpty(ps) == ps
  {
  }

  /** Restriction by a literal is exact, except that it may keep the prior
      domain when excluding a point would need a third interval. */
  lemma RestrictExact(op: BinOp, d: Domain, n: i64, x: int)
    requires IsComparison(op) && Canonical(d)
    ensures Restrict(op, d, n).Some? ==> Canonical(Restrict(op, d, n).value)
    ensures Has(d, x) && Compare(op, x, n) ==> Restrict(op, d, n).Some? && Has(Restrict(op, d, n).value, x)
    ensures Restrict(op, d, n).Some? && Has(Restrict(op, d, n).value, x) ==>
              Has(d, x) && (Compare(op, x, n) || (op.NotEq? && Restrict(op, d, n) == Some(d)))
  {
    var ps := RestrictPieces(op, d, n);
    RestrictPiecesExact(op, d, n, x);
    if |ps| <= 2 {
      CollectCovers(ps, x);
      assert forall p :: p in ps ==> Nonempty(p);
      DropNothing(ps);
      CollectTight(ps, x);
    }
  }

  /** Intersections of the pieces of two domains. */
  function MeetPieces(d: Domain, e: Domain): seq<Interval> {
    MeetRow(d.first, e) + if d.second.Some? then MeetRow(d.second.value, e) else []
  }

  function MeetRow(p: Interval, e: Domain): seq<Interval> {
    Clip(Int64.Max(p.lo, e.first.lo), Int64.Min(p.hi, e.first.hi)) +
    if e.second.Some? then Clip(Int64.Max(p.lo, e.second.value.lo), Int64.Min(p.hi, e.second.value.hi)) else []
  }

  /** Projects one comparison onto the left operand, given the right one's domain. */
  function Constrain(op: BinOp, d: Domain, e: Domain): Option<Domain> {
    var h := Hull(e);
    match op
    case Lt => Restrict(op, d, h.hi)
    case LtEq => Restrict(op, d, h.hi)
    case Gt => Restrict(op, d, h.lo)
    case GtEq => Restrict(op, d, h.lo)
    case NotEq => if h.lo == h.hi then Restrict(op, d, h.lo) else Some(d)
    case Eq =>
      var ps := MeetPieces(d, e);
      if |ps| > 2 then Some(d) else Collect(ps)
    case _ => Some(d)
  }

  lemma MeetRowExact(p: Interval, e: Domain, x: int)
    ensures In(MeetRow(p, e), x) <==> Within(x, p) && Has(e, x)
  {
    var a := Clip(Int64.Max(p.lo, e.first.lo), Int64.Min(p.hi, e.first.hi));
    if e.second.Some? {
      InAppend(a, Clip(Int64.Max(p.lo, e.second.value.lo), Int64.Min(p.hi, e.second.value.hi)), x);
    } else {
      assert MeetRow(p, e) == a;
    }
  }

  lemma MeetExact(d: Domain, e: Domain, x: int)
    ensures In(MeetPieces(d, e), x) <==> Has(d, x) && Has(e, x)
  {
    MeetRowExact(d.first, e, x);
    if d.second.Some? {
      MeetRowExact(d.second.value, e, x);
      InAppend(MeetRow(d.first, e), MeetRow(d.second.value, e), x);
    } else {
      assert MeetPieces(d, e) == MeetRow(d.first, e);
    }
  }

  /** A guard keeps every member that can satisfy it and never enlarges a domain. */
  lemma ConstrainSound(op: BinOp, d: Domain, e: Domain, x: int, y: int)
    requires IsComparison(op) && Canonical(d) && Canonical(e)
    ensures Constrain(op, d, e).Some? ==> Canonical(Constrain(op, d, e).value)
    ensures Has(d, x) && Has(e, y) && Compare(op, x, y) ==>
      Constrain(op, d, e).Some? && Has(Constrain(op, d, e).value, x)
    ensures Constrain(op, d, e).Some? && Has(Constrain(op, d, e).value, x) ==> Has(d, x)
  {
    var h := Hull(e);
    match op
    case Lt => RestrictExact(op, d, h.hi, x);
    case LtEq => RestrictExact(op, d, h.hi, x);
    case Gt => RestrictExact(op, d, h.lo, x);
    case GtEq => RestrictExact(op, d, h.lo, x);
    case NotEq => RestrictExact(op, d, h.lo, x);
    case Eq => MeetCollected(d, e, x);
  }

  lemma MeetCollected(d: Domain, e: Domain, x: int)
    requires Canonical(d) && Canonical(e)
    ensures Constrain(Eq, d, e).Some? ==> Canonical(Constrain(Eq, d, e).value)
    ensures Has(d, x) && Has(e, x) ==> Constrain(Eq, d, e).Some? && Has(Constrain(Eq, d, e).value, x)
    ensures Constrain(Eq, d, e).Some? && Has(Constrain(Eq, d, e).value, x) ==> Has(d, x)
  {
    var ps := MeetPieces(d, e);
    MeetExact(d, e, x);
    if |ps| <= 2 {
      CollectCovers(ps, x);
      CollectTight(ps, x);
    }
  }
}
