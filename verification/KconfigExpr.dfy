/** Kconfig expressions and their tristate meaning, as in `tools/kconfiglib.py`:
    n, m and y are 0, 1 and 2; `&&` is the minimum, `||` the maximum and `!` is 2 - x. */
module KconfigExpr {
  import opened Options

  type Tri = x: int | 0 <= x <= 2

  /** A symbol is named by a number. */
  datatype Sym = Sym(id: nat)

  /** What a relation compares: str_value, and the number that _sym_to_num makes of it, if it does. */
  datatype Operand = Operand(text: string, number: Option<int>)

  /** What an expression can refer to: one of the constants n, m and y, a symbol with a type, or a name without one,
      which is a constant or an undefined symbol. */
  datatype Atom = Lit(value: Tri) | Ref(sym: Sym) | Name(operand: Operand, undefined: Option<Sym>)

  datatype RelOp = Equal | Unequal | Less | LessEqual | Greater | GreaterEqual

  datatype Expr =
    | Leaf(atom: Atom)
    | And(left: Expr, right: Expr)
    | Or(left: Expr, right: Expr)
    | Not(arg: Expr)
    | Rel(op: RelOp, lhs: Atom, rhs: Atom)

  function TriMin(a: Tri, b: Tri): Tri { if a < b then a else b }

  function TriMax(a: Tri, b: Tri): Tri { if a < b then b else a }

  type Valuation = map<Sym, Tri>

  /** Undefined symbols are n. */
  function At(v: Valuation, s: Sym): Tri { if s in v then v[s] else 0 }

  function AtomValue(a: Atom, v: Valuation): Tri {
    match a
    case Lit(x) => x
    case Ref(s) => At(v, s)
    case Name(_, s) => if s.Some? then At(v, s.value) else 0
  }

  function TriOperand(x: Tri): Operand { Operand(if x == 0 then "n" else if x == 1 then "m" else "y", Some(x)) }

  function OperandOf(a: Atom, v: Valuation): Operand {
    match a
    case Lit(x) => TriOperand(x)
    case Ref(s) => TriOperand(At(v, s))
    case Name(o, _) => o
  }

  /** _strcmp */
  function Strcmp(a: string, b: string): int {
    if a == "" then if b == "" then 0 else -1
    else if b == "" then 1
    else if a[0] != b[0] then if a[0] < b[0] then -1 else 1
    else Strcmp(a[1..], b[1..])
  }

  /** Two operands compare as numbers if they both are, and as strings otherwise. */
  function Compared(a: Operand, b: Operand): int {
    if a.number.Some? && b.number.Some? then a.number.value - b.number.value else Strcmp(a.text, b.text)
  }

  predicate Holds(op: RelOp, comp: int) {
    match op
    case Equal => comp == 0
    case Unequal => comp != 0
    case Less => comp < 0
    case LessEqual => comp <= 0
    case Greater => comp > 0
    case GreaterEqual => comp >= 0
  }

  /** The value of an expression when symbol `s` has the value `v[s]`. */
  function Value(e: Expr, v: Valuation): Tri {
    match e
    case Leaf(a) => AtomValue(a, v)
    case And(l, r) => TriMin(Value(l, v), Value(r, v))
    case Or(l, r) => TriMax(Value(l, v), Value(r, v))
    case Not(a) => 2 - Value(a, v)
    case Rel(op, l, r) => if Holds(op, Compared(OperandOf(l, v), OperandOf(r, v))) then 2 else 0
  }

  /** The tristate operators: y only of both and n of either, and the other way round. */
  lemma OperatorLaws(l: Expr, r: Expr, v: Valuation)
    ensures Value(And(l, r), v) == 2 <==> Value(l, v) == 2 && Value(r, v) == 2
    ensures Value(And(l, r), v) == 0 <==> Value(l, v) == 0 || Value(r, v) == 0
    ensures Value(Or(l, r), v) == 2 <==> Value(l, v) == 2 || Value(r, v) == 2
    ensures Value(Or(l, r), v) == 0 <==> Value(l, v) == 0 && Value(r, v) == 0
    ensures Value(Not(l), v) == 2 <==> Value(l, v) == 0
    ensures Value(Not(l), v) == 0 <==> Value(l, v) == 2
  {
  }

  /** Relations are y or n; between symbols with a type they compare n, m and y as 0, 1 and 2. */
  lemma RelationLaws(s: Sym, t: Sym, v: Valuation)
    ensures Value(Rel(Equal, Ref(s), Ref(t)), v) == if At(v, s) == At(v, t) then 2 else 0
    ensures Value(Rel(Less, Ref(s), Ref(t)), v) == if At(v, s) < At(v, t) then 2 else 0
    ensures Value(Rel(LessEqual, Ref(s), Ref(t)), v) == if At(v, s) <= At(v, t) then 2 else 0
  {
  }

  lemma {:induction false} StrcmpTurned(a: string, b: string)
    ensures Strcmp(a, b) == -Strcmp(b, a) && (Strcmp(a, b) == 0 <==> a == b)
  {
    if a != "" && b != "" && a[0] == b[0] {
      StrcmpTurned(a[1..], b[1..]);
      assert a == [a[0]] + a[1..] && b == [b[0]] + b[1..];
    }
  }

  /** Operands compare in one of three ways, and the other relations follow from these. */
  lemma {:induction false} RelationKinds(a: Atom, b: Atom, v: Valuation)
    ensures Value(Rel(Unequal, a, b), v) == 2 - Value(Rel(Equal, a, b), v)
    ensures Value(Rel(GreaterEqual, a, b), v) == 2 - Value(Rel(Less, a, b), v)
    ensures Value(Rel(LessEqual, a, b), v) == 2 - Value(Rel(Greater, a, b), v)
    ensures Value(Rel(Greater, a, b), v) == Value(Rel(Less, b, a), v)
    ensures Value(Rel(Equal, a, b), v) == Value(Rel(Equal, b, a), v)
  {
    StrcmpTurned(OperandOf(a, v).text, OperandOf(b, v).text);
  }

  /** Strings are ordered by their first difference, a proper beginning being less. */
  lemma {:induction false} StrcmpFirst(p: string, a: string, b: string)
    ensures b != "" ==> Strcmp(p, p + b) < 0
    ensures a != "" && b != "" && a[0] < b[0] ==> Strcmp(p + a, p + b) < 0
  {
    if p == "" {
      assert p + a == a && p + b == b;
    } else {
      assert (p + a)[1..] == p[1..] + a && (p + b)[1..] == p[1..] + b;
      StrcmpFirst(p[1..], a, b);
    }
  }

  function AtomRefs(a: Atom): set<Sym> {
    match a
    case Lit(_) => {}
    case Ref(s) => {s}
    case Name(_, s) => if s.Some? then {s.value} else {}
  }

  /** A relation looks at the name of an undefined symbol and not at its value. */
  function OperandReads(a: Atom): set<Sym> { if a.Ref? then {a.sym} else {} }

  /** The symbols that occur in an expression. */
  function Refs(e: Expr): set<Sym> {
    match e
    case Leaf(a) => AtomRefs(a)
    case And(l, r) => Refs(l) + Refs(r)
    case Or(l, r) => Refs(l) + Refs(r)
    case Not(a) => Refs(a)
    case Rel(_, l, r) => AtomRefs(l) + AtomRefs(r)
  }

  /** The symbols whose values an evaluation looks at. `&&` and `||` skip their right operand when
      the left one decides. */
  function Reads(e: Expr, v: Valuation): (r: set<Sym>)
    ensures r <= Refs(e)
  {
    match e
    case Leaf(a) => AtomRefs(a)
    case And(l, r) => Reads(l, v) + if Value(l, v) == 0 then {} else Reads(r, v)
    case Or(l, r) => Reads(l, v) + if Value(l, v) == 2 then {} else Reads(r, v)
    case Not(a) => Reads(a, v)
    case Rel(_, l, r) => OperandReads(l) + OperandReads(r)
  }

  /** Only what was read matters: valuations that agree on the symbols one evaluation reads give the
      same value, and the other evaluation reads the same symbols. */
  lemma {:induction false} ReadsDecide(e: Expr, v: Valuation, w: Valuation)
    requires forall x :: x in Reads(e, v) ==> At(v, x) == At(w, x)
    ensures Value(e, v) == Value(e, w) && Reads(e, v) == Reads(e, w)
  {
    match e
    case Leaf(_) =>
    case Not(a) => ReadsDecide(a, v, w);
    case Rel(_, _, _) =>
    case And(l, r) =>
      ReadsDecide(l, v, w);
      if Value(l, v) != 0 { ReadsDecide(r, v, w); }
    case Or(l, r) =>
      ReadsDecide(l, v, w);
      if Value(l, v) != 2 { ReadsDecide(r, v, w); }
  }
}
