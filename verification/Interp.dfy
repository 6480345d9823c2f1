/** The reference evaluator. `Sem` selects how it is read:
      wrap     arithmetic wraps instead of faulting on overflow;
      lowered  booleans are the numbers 0 and 1, as native code has them;
      monitor  what each run is additionally held to (see `Monitor`). */
module Interp {
  import opened Int64
  import opened Ast
  import opened TextOps

  datatype Value =
    | VNumber(n: i64)
    | VBounds
    | VBool(b: bool)
    | VText(s: Bytes)
    | VBytes(bs: Bytes)
    | VList(items: seq<Value>)
    | VRecord(fields: map<string, Value>)
    | VOk(inner: Value)
    | VErr(inner: Value)
    | VVariant(concept: string, variant: string, fields: map<string, Value>)

  type Env = map<string, Value>

  /** Overflow, DivZero and MinDiv are arithmetic faults; Range, Parse, Abort,
      TooLong and Refused are the declared runtime refusals; Stuck is everything
      source typing should have excluded; Timeout is an exhausted call budget;
      IllFormed is a construction the Types monitor rejected. */
  datatype Fault =
    Overflow | DivZero | MinDiv | Range | Parse | Abort | TooLong | Refused | Stuck | Timeout | IllFormed

  datatype Res<+T> = Good(value: T) | Bad(fault: Fault) {
    predicate IsFailure() { Bad? }
    function PropagateFailure<U>(): Res<U>
      requires Bad?
    {
      Bad(fault)
    }
    function Extract(): T
      requires Good?
    {
      value
    }
  }

  /** Off: the interpreter itself.
      Lowering: a rule entered with a numeric field that is no number of its
        declared range, or a boolean printed by concat, makes the run Stuck.
      Types: a rule entered or left with a value outside its declared type makes
        the run Stuck, and an ill-typed construction makes it IllFormed. */
  datatype Monitor = Off | Lowering | Types

  datatype Sem = Sem(wrap: bool, lowered: bool, monitor: Monitor)

  /** `guarded` names the rules whose entry guard is enforced. */
  datatype Ctx = Ctx(prog: Program, guarded: set<string>, sem: Sem)

  // ----- builtins -----

  function MkBool(m: Sem, b: bool): Value {
    if m.lowered then VNumber(if b then 1 else 0) else VBool(b)
  }

  function AsBool(m: Sem, v: Value): Option<bool> {
    if m.lowered then
      if v == VNumber(0) then Some(false) else if v == VNumber(1) then Some(true) else None
    else
      if v.VBool? then Some(v.b) else None
  }

  function Arith(m: Sem, x: int): Res<Value> {
    if Fits(x) then Good(VNumber(x)) else if m.wrap then Good(VNumber(Wrap(x))) else Bad(Overflow)
  }

  predicate Compare(op: BinOp, a: int, b: int) {
    match op
    case Eq => a == b
    case NotEq => a != b
    case Lt => a < b
    case LtEq => a <= b
    case Gt => a > b
    case GtEq => a >= b
    case _ => false
  }

  predicate IsComparison(op: BinOp) {
    op in {Eq, NotEq, Lt, LtEq, Gt, GtEq}
  }

  function ApplyNumbers(m: Sem, op: BinOp, a: i64, b: i64): Res<Value> {
    match op
    case Add => Arith(m, a + b)
    case Sub => Arith(m, a - b)
    case Mul => Arith(m, a * b)
    case Div =>
      if b == 0 then Bad(DivZero) else if a == MIN && b == -1 then Bad(MinDiv)
      else Arith(m, TruncDiv(a, b))
    case Mod =>
      if b == 0 then Bad(DivZero) else if a == MIN && b == -1 then Bad(MinDiv)
      else Arith(m, TruncMod(a, b))
    case And => Bad(Stuck)
    case Or => Bad(Stuck)
    case _ => Good(MkBool(m, Compare(op, a, b)))
  }

  /** The strict operators; And and Or are evaluated in `Eval`. */
  function ApplyBinary(m: Sem, op: BinOp, a: Value, b: Value): Res<Value> {
    match (a, b)
    case (VNumber(x), VNumber(y)) => ApplyNumbers(m, op, x, y)
    case (VText(_), VText(_)) =>
      if op.Eq? then Good(MkBool(m, a == b)) else if op.NotEq? then Good(MkBool(m, a != b)) else Bad(Stuck)
    case (VBool(_), VBool(_)) =>
      if op.Eq? then Good(MkBool(m, a == b)) else if op.NotEq? then Good(MkBool(m, a != b)) else Bad(Stuck)
    case _ => Bad(Stuck)
  }

  function ApplyUnary(m: Sem, op: UnOp, v: Value): Res<Value> {
    match op
    case Not => (match AsBool(m, v) case Some(b) => Good(MkBool(m, !b)) case None => Bad(Stuck))
    case Neg => if v.VNumber? then Arith(m, 0 - v.n) else Bad(Stuck)
    case Abs => if v.VNumber? then Good(VNumber(Wrap(Int64.Abs(v.n)))) else Bad(Stuck)
    case BitNot => if v.VNumber? then Good(VNumber(BitNotI64(v.n))) else Bad(Stuck)
    case ParseInt =>
      if v.VText? then
        (match ParseI64(v.s) case Some(n) => Good(VNumber(n)) case None => Bad(Parse))
      else Bad(Stuck)
    case JsonEscape => if v.VText? then Good(VText(Escape(v.s))) else Bad(Stuck)
    case Le32 => if v.VNumber? then Good(VBytes(LittleEndian(v.n % MODULUS, 4))) else Bad(Stuck)
    case Le64 => if v.VNumber? then Good(VBytes(LittleEndian(v.n % MODULUS, 8))) else Bad(Stuck)
    case Length =>
      if v.VText? then Good(VNumber(Wrap(|v.s|)))
      else if v.VBytes? then Good(VNumber(Wrap(|v.bs|)))
      else Bad(Stuck)
    case AbortIf =>
      if v == VNumber(0) then Good(VBytes([])) else if v.VNumber? then Bad(Abort) else Bad(Stuck)
    case ArenaScope => Good(v)
    case MkOk => Good(VOk(v))
    case MkErr => Good(VErr(v))
  }

  function ByteOf(table: Bytes, i: i64): Res<Value> {
    if 0 <= i < |table| then Good(VNumber(table[i])) else Bad(Range)
  }

  function ApplyPrim(m: Sem, op: PrimOp, a: Value, b: Value): Res<Value> {
    match (a, b)
    case (VNumber(x), VNumber(y)) =>
      (match op
       case MinOp => Good(VNumber(Int64.Min(x, y)))
       case MaxOp => Good(VNumber(Int64.Max(x, y)))
       case BitAnd => Good(VNumber(BitI64(BAnd, x, y)))
       case BitOr => Good(VNumber(BitI64(BOr, x, y)))
       case BitXor => Good(VNumber(BitI64(BXor, x, y)))
       case Shl => Good(VNumber(Int64.Shl(x, y)))
       case Shr => Good(VNumber(Int64.Shr(x, y)))
       case _ => Bad(Stuck))
    case (VText(h), VText(n)) =>
      (match op
       case StartsWith => Good(MkBool(m, HasPrefix(h, n)))
       case EndsWith => Good(MkBool(m, HasSuffix(h, n)))
       case Contains => Good(MkBool(m, HasInfix(h, n)))
       case _ => Bad(Stuck))
    case (VText(t), VNumber(i)) => if op.ByteAt? then ByteOf(t, i) else Bad(Stuck)
    case (VBytes(t), VNumber(i)) => if op.ByteAt? then ByteOf(t, i) else Bad(Stuck)
    case _ => Bad(Stuck)
  }

  predicate IsTable(e: Expr) {
    e.Text? || e.BytesLit?
  }

  function Table(e: Expr): Bytes
    requires IsTable(e)
  {
    if e.Text? then e.s else e.b
  }

  function ApplyTryByte(table: Bytes, i: Value): Res<Value> {
    if !i.VNumber? then Bad(Stuck)
    else if 0 <= i.n < |table| then Good(VOk(VNumber(table[i.n])))
    else Good(VErr(VBounds))
  }

  function ApplySubstring(t: Value, s: Value, e: Value): Res<Value> {
    if t.VText? && s.VNumber? && e.VNumber? then
      if 0 <= s.n <= e.n <= |t.s| then Good(VText(t.s[s.n..e.n])) else Bad(Range)
    else Bad(Stuck)
  }

  function JoinBytes(vs: seq<Value>): Res<Bytes> {
    if vs == [] then Good([])
    else if !vs[0].VBytes? then Bad(Stuck)
    else
      var rest :- JoinBytes(vs[1..]);
      Good(vs[0].bs + rest)
  }

  function Show(m: Sem, v: Value): Res<Bytes> {
    match v
    case VText(s) => Good(s)
    case VNumber(n) => Good(Decimal(n))
    case VBool(b) =>
      if m.monitor.Lowering? then Bad(Stuck)
      else Good(if b then [116, 114, 117, 101] else [102, 97, 108, 115, 101])
    case _ => Bad(Stuck)
  }

  function JoinText(m: Sem, vs: seq<Value>): Res<Bytes> {
    if vs == [] then Good([])
    else
      var first :- Show(m, vs[0]);
      var rest :- JoinText(m, vs[1..]);
      Good(first + rest)
  }

  function ApplyConcat(m: Sem, vs: seq<Value>): Res<Value> {
    if exists i | 0 <= i < |vs| :: vs[i].VBytes? then
      var b :- JoinBytes(vs);
      Good(VBytes(b))
    else
      var s :- JoinText(m, vs);
      Good(VText(s))
  }

  // ----- typing of values -----

  function ElemType(name: string): Type {
    if name == "number" then TNumber
    else if name == "bool" then TBool
    else if name == "text" then TText
    else if name == "bytes" then TBytes
    else TNamed(name)
  }

  function FindVariant(vs: seq<VariantDecl>, name: string): (r: Option<VariantDecl>)
    ensures r.Some? ==> r.value in vs && r.value.name == name
    ensures r.None? ==> forall v :: v in vs ==> v.name != name
  {
    if vs == [] then None
    else if vs[0].name == name then Some(vs[0])
    else FindVariant(vs[1..], name)
  }

  function FindField(fs: seq<FieldDecl>, name: string): (r: Option<FieldDecl>)
    ensures r.Some? ==> r.value in fs && r.value.name == name
    ensures r.None? ==> forall f :: f in fs ==> f.name != name
  {
    if fs == [] then None
    else if fs[0].name == name then Some(fs[0])
    else FindField(fs[1..], name)
  }

  predicate HasType(cs: map<string, Concept>, v: Value, t: Type)
    decreases v, 1
  {
    match t
    case TNumber => v.VNumber?
    case TBoundsError => v.VBounds?
    case TBool => v.VBool?
    case TText => v.VText?
    case TBytes => v.VBytes?
    case TCollection(n) => v.VList? && forall i | 0 <= i < |v.items| :: HasType(cs, v.items[i], ElemType(n))
    case TResult(a, b) => (v.VOk? && HasType(cs, v.inner, a)) || (v.VErr? && HasType(cs, v.inner, b))
    case TNamed(n) =>
      n in cs &&
      if cs[n].variants == [] then
        v.VRecord? && FieldsTyped(cs, cs[n].fields, v)
      else
        v.VVariant? && v.concept == n &&
        var d := FindVariant(cs[n].variants, v.variant);
        d.Some? && FieldsTyped(cs, d.value.fields, v)
  }

  function Names(ds: seq<FieldDecl>): set<string> { set i | 0 <= i < |ds| :: ds[i].name }

  /** Exactly the declared fields, each of the type of its first declaration. */
  predicate FieldsTyped(cs: map<string, Concept>, ds: seq<FieldDecl>, v: Value)
    requires v.VRecord? || v.VVariant?
    decreases v, 0
  {
    && v.fields.Keys == Names(ds)
    && forall f | f in v.fields && FindField(ds, f).Some? :: HasType(cs, v.fields[f], FindField(ds, f).value.ty)
  }

  // ----- rule entry -----

  /** The enforced entry guard of a rule taking part in a bounded contract. */
  predicate EntryGuard(cs: map<string, Concept>, r: Rule, v: Value) {
    && r.inputTy.TNamed? && r.inputTy.concept in cs
    && v.VRecord?
    && forall f | f in cs[r.inputTy.concept].fields :: FieldAdmitted(f, v.fields)
  }

  predicate FieldAdmitted(f: FieldDecl, m: map<string, Value>) {
    && f.name in m
    && var v := m[f.name];
       || (f.ty.TText? && v.VText? && (f.range.Some? ==> |v.s| <= f.range.value.1))
       || (f.ty.TNumber? && v.VNumber? && (f.range.Some? ==> f.range.value.0 <= v.n <= f.range.value.1))
  }

  /** Declared ranges of the numeric fields; the whole of i64 where none is declared. */
  function FieldRanges(fs: seq<FieldDecl>): map<string, (i64, i64)> {
    if fs == [] then map[]
    else
      var f := fs[|fs| - 1];
      var m := FieldRanges(fs[..|fs| - 1]);
      if f.ty.TNumber? then m[f.name := if f.range.Some? then f.range.value else (MIN, MAX)] else m
  }

  function RuleRanges(cs: map<string, Concept>, r: Rule): map<string, (i64, i64)> {
    if r.inputTy.TNamed? && r.inputTy.concept in cs then FieldRanges(cs[r.inputTy.concept].fields) else map[]
  }

  predicate InRanges(fr: map<string, (i64, i64)>, v: Value) {
    v.VRecord? ==>
      forall f | f in fr && f in v.fields :: v.fields[f].VNumber? && fr[f].0 <= v.fields[f].n <= fr[f].1
  }

  predicate EntryExpected(c: Ctx, r: Rule, v: Value) {
    match c.sem.monitor
    case Off => true
    case Lowering => InRanges(RuleRanges(c.prog.concepts, r), v)
    case Types => HasType(c.prog.concepts, v, r.inputTy)
  }

  predicate ExitExpected(c: Ctx, r: Rule, v: Value) {
    c.sem.monitor.Types? ==> HasType(c.prog.concepts, v, r.outputTy)
  }

  function Build(c: Ctx, concept: string, variant: Option<string>, m: map<string, Value>): Res<Value> {
    var v := if variant.None? then VRecord(m) else VVariant(concept, variant.value, m);
    if c.sem.monitor.Types? && !HasType(c.prog.concepts, v, TNamed(concept)) then Bad(IllFormed) else Good(v)
  }

  // ----- pattern matching -----

  function FindArm(arms: seq<Arm>, name: string): (r: Option<nat>)
    ensures r.Some? ==> r.value < |arms| && arms[r.value].variant == name
    ensures r.None? ==> forall i | 0 <= i < |arms| :: arms[i].variant != name
  {
    if arms == [] then None
    else if arms[0].variant == name then Some(0)
    else match FindArm(arms[1..], name) case None => None case Some(i) => Some(i + 1)
  }

  /** Binds an arm's positional names to the payload fields in declared order. */
  function BindArm(bs: seq<Option<string>>, ds: seq<FieldDecl>, m: map<string, Value>, env: Env): Res<Env>
    requires |bs| == |ds|
  {
    if bs == [] then Good(env)
    else if bs[0].None? then BindArm(bs[1..], ds[1..], m, env)
    else if ds[0].name !in m then Bad(Stuck)
    else BindArm(bs[1..], ds[1..], m, env[bs[0].value := m[ds[0].name]])
  }

  /** The arm a variant value selects, and the environment of its body. */
  function SelectArm(c: Ctx, arms: seq<Arm>, v: Value, env: Env): (r: Res<(nat, Env)>)
    ensures r.Good? ==> r.value.0 < |arms|
  {
    if !v.VVariant? then Bad(Stuck)
    else
      match FindArm(arms, v.variant)
      case None => Bad(Stuck)
      case Some(i) =>
        if v.concept !in c.prog.concepts then Bad(Stuck)
        else
          match FindVariant(c.prog.concepts[v.concept].variants, v.variant)
          case None => Bad(Stuck)
          case Some(d) =>
            if |arms[i].binders| != |d.fields| then Bad(Stuck)
            else
              var env' :- BindArm(arms[i].binders, d.fields, v.fields, env);
              Good((i, env'))
  }

  // ----- evaluation -----

  /** `k` bounds the depth of nested rule calls. */
  function Eval(c: Ctx, e: Expr, env: Env, k: nat): Res<Value>
    decreases k, 0, e, 0
  {
    match e
    case Number(n) => Good(VNumber(n))
    case Text(s) => Good(VText(s))
    case BytesLit(b) => Good(VBytes(b))
    case Ident(x) => if x in env then Good(env[x]) else Bad(Stuck)
    case Field(b, f) =>
      var v :- Eval(c, b, env, k);
      if v.VRecord? && f in v.fields then Good(v.fields[f]) else Bad(Stuck)
    case Binary(op, l, r) =>
      var a :- Eval(c, l, env, k);
      if op.And? || op.Or? then
        match AsBool(c.sem, a)
        case None => Bad(Stuck)
        case Some(x) =>
          if x == op.Or? then Good(a)
          else
            var b :- Eval(c, r, env, k);
            if AsBool(c.sem, b).None? then Bad(Stuck) else Good(b)
      else
        var b :- Eval(c, r, env, k);
        ApplyBinary(c.sem, op, a, b)
    case Unary(op, a) =>
      var v :- Eval(c, a, env, k);
      ApplyUnary(c.sem, op, v)
    case Prim(op, a, b) =>
      var x :- Eval(c, a, env, k);
      var y :- Eval(c, b, env, k);
      ApplyPrim(c.sem, op, x, y)
    case TryByteAt(t, i) =>
      if !IsTable(t) then Bad(Stuck)
      else
        var v :- Eval(c, i, env, k);
        ApplyTryByte(Table(t), v)
    case Substring(t, s, e') =>
      var x :- Eval(c, t, env, k);
      var y :- Eval(c, s, env, k);
      var z :- Eval(c, e', env, k);
      ApplySubstring(x, y, z)
    case If(q, a, b) =>
      var v :- Eval(c, q, env, k);
      (match AsBool(c.sem, v)
       case None => Bad(Stuck)
       case Some(x) => if x then Eval(c, a, env, k) else Eval(c, b, env, k))
    case MatchResult(t, okVar, okBody, errVar, errBody) =>
      var v :- Eval(c, t, env, k);
      if v.VOk? then Eval(c, okBody, env[okVar := v.inner], k)
      else if v.VErr? then Eval(c, errBody, env[errVar := v.inner], k)
      else Bad(Stuck)
    case Call(name, args) =>
      if name !in c.prog.rules || |args| != 1 then Bad(Stuck)
      else
        var v :- Eval(c, args[0], env, k);
        if k == 0 then Bad(Timeout) else EvalRule(c, c.prog.rules[name], v, k - 1)
    case Concat(args) =>
      var vs :- EvalAll(c, args, env, k);
      ApplyConcat(c.sem, vs)
    case Construct(n, variant, inits) =>
      var m :- EvalInits(c, inits, env, map[], k);
      Build(c, n, variant, m)
    case MatchVariant(s, arms) =>
      var v :- Eval(c, s, env, k);
      var sel :- SelectArm(c, arms, v, env);
      Eval(c, arms[sel.0].body, sel.1, k)
    case Quantifier(all, coll, x, body) =>
      var v :- Eval(c, coll, env, k);
      if v.VList? then EvalQuantifier(c, all, body, x, v.items, env, k) else Bad(Stuck)
    case Collect(keep, coll, x, body) =>
      var v :- Eval(c, coll, env, k);
      if !v.VList? then Bad(Stuck)
      else
        var out :- EvalCollect(c, keep, body, x, v.items, env, k);
        Good(VList(out))
    case Fold(coll, init, acc, x, body) =>
      var v :- Eval(c, coll, env, k);
      if !v.VList? then Bad(Stuck)
      else
        var a :- Eval(c, init, env, k);
        EvalFold(c, body, acc, x, a, v.items, env, k)
    case FoldBytes(t, init, acc, byte, idx, body) =>
      var v :- Eval(c, t, env, k);
      if !v.VText? then Bad(Stuck)
      else
        var a :- Eval(c, init, env, k);
        if !a.VNumber? then Bad(Stuck)
        else EvalFoldBytes(c, e, a, v.s, 0, env, k)
  }

  function EvalAll(c: Ctx, es: seq<Expr>, env: Env, k: nat): (r: Res<seq<Value>>)
    decreases k, 0, es, 0
  {
    if es == [] then Good([])
    else
      var v :- Eval(c, es[0], env, k);
      var vs :- EvalAll(c, es[1..], env, k);
      Good([v] + vs)
  }

  /** Field expressions in source order; a repeated field overwrites. */
  function EvalInits(c: Ctx, fs: seq<FieldInit>, env: Env, m: map<string, Value>, k: nat): Res<map<string, Value>>
    decreases k, 0, fs, 0
  {
    if fs == [] then Good(m)
    else
      var v :- Eval(c, fs[0].value, env, k);
      EvalInits(c, fs[1..], env, m[fs[0].name := v], k)
  }

  function EvalQuantifier(c: Ctx, all: bool, body: Expr, x: string, items: seq<Value>, env: Env, k: nat): Res<Value>
    decreases k, 0, body, |items| + 1
  {
    if items == [] then Good(MkBool(c.sem, all))
    else
      var v :- Eval(c, body, env[x := items[0]], k);
      match AsBool(c.sem, v)
      case None => Bad(Stuck)
      case Some(b) =>
        if b != all then Good(MkBool(c.sem, b)) else EvalQuantifier(c, all, body, x, items[1..], env, k)
  }

  /** `map` when `keep` is false, `filter` when it is true. */
  function EvalCollect(c: Ctx, keep: bool, body: Expr, x: string, items: seq<Value>, env: Env, k: nat): Res<seq<Value>>
    decreases k, 0, body, |items| + 1
  {
    if items == [] then Good([])
    else
      var v :- Eval(c, body, env[x := items[0]], k);
      if keep && AsBool(c.sem, v).None? then Bad(Stuck)
      else
        var rest :- EvalCollect(c, keep, body, x, items[1..], env, k);
        Good((if !keep then [v] else if AsBool(c.sem, v) == Some(true) then [items[0]] else []) + rest)
  }

  function EvalFold(c: Ctx, body: Expr, acc: string, x: string, a: Value, items: seq<Value>, env: Env,
      k: nat): Res<Value>
    decreases k, 0, body, |items| + 1
  {
    if items == [] then Good(a)
    else
      var a' :- Eval(c, body, env[acc := a][x := items[0]], k);
      EvalFold(c, body, acc, x, a', items[1..], env, k)
  }

  function EvalFoldBytes(c: Ctx, e: Expr, a: Value, s: Bytes, i: nat, env: Env, k: nat): Res<Value>
    requires e.FoldBytes? && i <= |s|
    decreases k, 0, e.body, |s| - i + 1
  {
    if i == |s| then Good(a)
    else
      var a' :- Eval(c, e.body, env[e.acc := a][e.byte := VNumber(s[i])][e.idx := VNumber(Wrap(i))], k);
      if !a'.VNumber? then Bad(Stuck) else EvalFoldBytes(c, e, a', s, i + 1, env, k)
  }

  function EvalLets(c: Ctx, bs: seq<Binding>, env: Env, k: nat): Res<Env>
    decreases k, 1, |bs|
  {
    if bs == [] then Good(env)
    else
      var v :- Eval(c, bs[0].value, env, k);
      EvalLets(c, bs[1..], env[bs[0].name := v], k)
  }

  function EvalRule(c: Ctx, r: Rule, v: Value, k: nat): Res<Value>
    decreases k, 2
  {
    if !EntryExpected(c, r, v) then Bad(Stuck)
    else if (r.name in c.guarded || r.textMax.Some?) && !EntryGuard(c.prog.concepts, r, v) then Bad(Refused)
    else
      var env :- EvalLets(c, r.bindings, map[r.input := v], k);
      var out :- Eval(c, r.value, env, k);
      if r.textMax.Some? && !(out.VText? && |out.s| <= r.textMax.value) then Bad(TooLong)
      else if !ExitExpected(c, r, out) then Bad(Stuck)
      else Good(out)
  }
}
