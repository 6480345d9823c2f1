/** Type facts: what is known of an expression's type. */
module Facts {
  import opened Ast
  import opened Interp

  /** Absent is the arm of a result that was never constructed. */
  datatype Fact = Known(ty: Type) | Result(ok: Fact, err: Fact) | Absent | Unknown

  function FromType(t: Type): Fact {
    match t
    case TResult(a, b) => Result(FromType(a), FromType(b))
    case _ => Known(t)
  }

  function CompleteType(f: Fact): Option<Type> {
    match f
    case Known(t) => Some(t)
    case Result(a, b) =>
      (match (CompleteType(a), CompleteType(b)) case (Some(x), Some(y)) => Some(TResult(x, y)) case _ => None)
    case _ => None
  }

  predicate Fits(f: Fact, t: Type) {
    match f
    case Known(a) => a == t
    case Result(a, b) => t.TResult? && (a.Absent? || Fits(a, t.ok)) && (b.Absent? || Fits(b, t.err))
    case _ => false
  }

  function Join(a: Fact, b: Fact): Fact {
    if a.Absent? then b
    else if b.Absent? then a
    else if a.Result? && b.Result? then Result(Join(a.ok, b.ok), Join(a.err, b.err))
    else if a == b then a
    else Unknown
  }

  /** A name bound from a fact; an absent arm binds nothing known. */
  function Bound(f: Fact): Fact { if f.Absent? then Unknown else f }

  function Element(f: Fact): Fact {
    if f.Known? && f.ty.TCollection? then Known(ElemType(f.ty.elem)) else Unknown
  }

  function ScalarName(t: Type): Option<string> {
    match t
    case TNumber => Some("number")
    case TBool => Some("bool")
    case TText => Some("text")
    case TBytes => Some("bytes")
    case TNamed(n) => Some(n)
    case _ => None
  }

  function Collection(f: Fact): Fact {
    if f.Known? && ScalarName(f.ty).Some? then Known(TCollection(ScalarName(f.ty).value)) else Unknown
  }

  // ----- the lattice -----

  /** No result type hides inside a Known fact. */
  predicate Normal(f: Fact) {
    match f
    case Known(t) => !t.TResult?
    case Result(a, b) => Normal(a) && Normal(b)
    case _ => true
  }

  lemma {:induction false} FromTypeExact(t: Type)
    ensures Normal(FromType(t)) && CompleteType(FromType(t)) == Some(t) && Fits(FromType(t), t)
  {
    if t.TResult? {
      FromTypeExact(t.ok);
      FromTypeExact(t.err);
    }
  }

  /** A complete fact fits exactly its own type. */
  lemma {:induction false} CompleteFits(f: Fact, t: Type)
    requires CompleteType(f).Some?
    ensures Fits(f, t) <==> CompleteType(f) == Some(t)
  {
    if f.Result? && t.TResult? {
      CompleteFits(f.ok, t.ok);
      CompleteFits(f.err, t.err);
    }
  }

  lemma {:induction false} JoinIdempotent(a: Fact)
    ensures Join(a, a) == a
  {
    if a.Result? {
      JoinIdempotent(a.ok);
      JoinIdempotent(a.err);
    }
  }

  lemma {:induction false} JoinCommutes(a: Fact, b: Fact)
    ensures Join(a, b) == Join(b, a)
  {
    if a.Result? && b.Result? {
      JoinCommutes(a.ok, b.ok);
      JoinCommutes(a.err, b.err);
    }
  }

  lemma {:induction false} JoinAssociates(a: Fact, b: Fact, c: Fact)
    ensures Join(Join(a, b), c) == Join(a, Join(b, c))
  {
    if a.Result? && b.Result? && c.Result? {
      JoinAssociates(a.ok, b.ok, c.ok);
      JoinAssociates(a.err, b.err, c.err);
    }
  }

  /** Fits, with Absent compatible with everything. */
  predicate Compatible(f: Fact, t: Type) { f.Absent? || Fits(f, t) }

  /** A join is compatible with a type exactly when both sides are. */
  lemma {:induction false} JoinFits(a: Fact, b: Fact, t: Type)
    requires Normal(a) && Normal(b)
    ensures Compatible(Join(a, b), t) <==> Compatible(a, t) && Compatible(b, t)
  {
    if a.Result? && b.Result? && t.TResult? {
      JoinFits(a.ok, b.ok, t.ok);
      JoinFits(a.err, b.err, t.err);
    }
  }

  // ----- what facts say of values -----

  /** Every value is Unknown, none is Absent. */
  predicate Holds(cs: map<string, Concept>, v: Value, f: Fact) {
    match f
    case Known(t) => HasType(cs, v, t)
    case Result(a, b) => (v.VOk? && Holds(cs, v.inner, a)) || (v.VErr? && Holds(cs, v.inner, b))
    case Absent => false
    case Unknown => true
  }

  lemma {:induction false} TypeHolds(cs: map<string, Concept>, v: Value, t: Type)
    ensures Holds(cs, v, FromType(t)) <==> HasType(cs, v, t)
  {
    if t.TResult? && (v.VOk? || v.VErr?) {
      TypeHolds(cs, v.inner, t.ok);
      TypeHolds(cs, v.inner, t.err);
    }
  }

  /** A fact that fits a type puts its values in the type. */
  lemma {:induction false} FitsHolds(cs: map<string, Concept>, v: Value, f: Fact, t: Type)
    requires Fits(f, t) && Holds(cs, v, f)
    ensures HasType(cs, v, t)
  {
    if f.Result? {
      if v.VOk? && Holds(cs, v.inner, f.ok) {
        FitsHolds(cs, v.inner, f.ok, t.ok);
      } else {
        FitsHolds(cs, v.inner, f.err, t.err);
      }
    }
  }

  /** Values of either side are values of the join. */
  lemma {:induction false} JoinHolds(cs: map<string, Concept>, v: Value, a: Fact, b: Fact)
    requires Holds(cs, v, a) || Holds(cs, v, b)
    ensures Holds(cs, v, Join(a, b))
  {
    if a.Result? && b.Result? {
      if (v.VOk? && Holds(cs, v.inner, a.ok)) || (v.VOk? && Holds(cs, v.inner, b.ok)) {
        JoinHolds(cs, v.inner, a.ok, b.ok);
      } else {
        JoinHolds(cs, v.inner, a.err, b.err);
      }
    }
  }

  /** No concept is named like a scalar type. */
  predicate ScalarsReserved(cs: map<string, Concept>) {
    "number" !in cs && "bool" !in cs && "text" !in cs && "bytes" !in cs
  }

  lemma CollectionHolds(cs: map<string, Concept>, vs: seq<Value>, f: Fact)
    requires ScalarsReserved(cs) && forall i | 0 <= i < |vs| :: Holds(cs, vs[i], f)
    ensures Holds(cs, VList(vs), Collection(f))
  {
    if f.Known? && ScalarName(f.ty).Some? {
      forall i | 0 <= i < |vs|
        ensures HasType(cs, vs[i], ElemType(ScalarName(f.ty).value))
      {
        assert Holds(cs, vs[i], f);
      }
    }
  }
}
