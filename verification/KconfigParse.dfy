/** The expression printer and the recursive-descent parser of `tools/kconfiglib.py`, on tokens.
    No rewriting of `m` takes place. */
module KconfigParse {
  import opened KconfigExpr

  datatype Token = TSym(atom: Atom) | TRel(op: RelOp) | TAnd | TOr | TNot | TOpen | TClose | TOther

  type Tokens = seq<Token>

  datatype Parse = Fail | Done(expr: Expr, rest: Tokens)

  /* The printer: expr_str and _parenthesize. */

  function PrintOperand(e: Expr, parens: bool): Tokens
    decreases e, 1
  {
    if parens then [TOpen] + Print(e) + [TClose] else Print(e)
  }

  function Print(e: Expr): Tokens
    decreases e, 0
  {
    match e
    case Leaf(a) => [TSym(a)]
    case And(l, r) => PrintOperand(l, l.Or?) + [TAnd] + PrintOperand(r, r.Or?)
    case Or(l, r) => PrintOperand(l, l.And?) + [TOr] + PrintOperand(r, r.And?)
    case Not(a) => if a.Leaf? then [TNot, TSym(a.atom)] else [TNot, TOpen] + Print(a) + [TClose]
    case Rel(op, l, r) => [TSym(l), TRel(op), TSym(r)]
  }

  predicate Starts(ts: Tokens, t: Token) { ts != [] && ts[0] == t }

  predicate StartsRel(ts: Tokens) { ts != [] && ts[0].TRel? }

  /* The parser as a function from the remaining tokens. */

  function ParseFactor(ts: Tokens): (p: Parse)
    ensures p.Done? ==> |p.rest| < |ts|
    decreases |ts|, 0
  {
    if ts == [] then Fail
    else match ts[0]
      case TSym(a) =>
        if !StartsRel(ts[1..]) then Done(Leaf(a), ts[1..])
        else if |ts| > 2 && ts[2].TSym? then Done(Rel(ts[1].op, a, ts[2].atom), ts[3..])
        else Fail
      case TNot =>
        var p := ParseFactor(ts[1..]);
        if p.Fail? then Fail else Done(Not(p.expr), p.rest)
      case TOpen =>
        var p := ParseExpr(ts[1..]);
        if p.Done? && Starts(p.rest, TClose) then Done(p.expr, p.rest[1..]) else Fail
      case _ => Fail
  }

  function ParseAnd(ts: Tokens): (p: Parse)
    ensures p.Done? ==> |p.rest| < |ts|
    decreases |ts|, 1
  {
    var left := ParseFactor(ts);
    if left.Fail? || !Starts(left.rest, TAnd) then left
    else
      var right := ParseAnd(left.rest[1..]);
      if right.Fail? then Fail else Done(And(left.expr, right.expr), right.rest)
  }

  function ParseExpr(ts: Tokens): (p: Parse)
    ensures p.Done? ==> |p.rest| < |ts|
    decreases |ts|, 2
  {
    var left := ParseAnd(ts);
    if left.Fail? || !Starts(left.rest, TOr) then left
    else
      var right := ParseExpr(left.rest[1..]);
      if right.Fail? then Fail else Done(Or(left.expr, right.expr), right.rest)
  }

  /** Kconfig._tokens and Kconfig._tokens_i with the parsing methods. */
  class Parser {
    const tokens: Tokens
    var i: nat

    constructor (tokens: Tokens)
      ensures this.tokens == tokens && i == 0
    {
      this.tokens := tokens;
      i := 0;
    }

    ghost predicate Valid() reads this { i <= |tokens| }

    /** What a parsing method that started with the tokens `ts` ahead has done. */
    ghost predicate Parsed(p: Parse, ok: bool, e: Expr) reads this {
      && Valid() && (ok <==> p.Done?)
      && (ok ==> e == p.expr && tokens[i..] == p.rest)
    }

    /** _check_token */
    method Check(t: Token) returns (found: bool)
      requires Valid()
      modifies this
      ensures Valid() && found == Starts(old(tokens[i..]), t)
      ensures i == old(i) + if found then 1 else 0
      ensures tokens[i..] == if found then old(tokens[i..])[1..] else old(tokens[i..])
    {
      found := i < |tokens| && tokens[i] == t;
      if found {
        i := i + 1;
      }
    }

    method Expression() returns (ok: bool, e: Expr)
      requires Valid()
      modifies this
      ensures Parsed(ParseExpr(old(tokens[i..])), ok, e)
      decreases |tokens| - i, 2
    {
      ghost var start := i;
      ok, e := Conjunction();
      if ok {
        ghost var left := tokens[i..];
        var more := Check(TOr);
        if more {
          assert tokens[i..] == left[1..];
          var right;
          ok, right := Expression();
          e := Or(e, right);
        }
      }
    }

    method Conjunction() returns (ok: bool, e: Expr)
      requires Valid()
      modifies this
      ensures Parsed(ParseAnd(old(tokens[i..])), ok, e)
      decreases |tokens| - i, 1
    {
      ok, e := Factor();
      if ok {
        ghost var left := tokens[i..];
        var more := Check(TAnd);
        if more {
          assert tokens[i..] == left[1..];
          var right;
          ok, right := Conjunction();
          e := And(e, right);
        }
      }
    }

    method Factor() returns (ok: bool, e: Expr)
      requires Valid()
      modifies this
      ensures Parsed(ParseFactor(old(tokens[i..])), ok, e)
      decreases |tokens| - i, 0
    {
      ok, e := false, Leaf(Lit(0));
      if i == |tokens| {
        return;
      }
      ghost var ts := tokens[i..];
      var token := tokens[i];
      i := i + 1;
      assert tokens[i..] == ts[1..];
      match token
      case TSym(a) =>
        if i == |tokens| || !tokens[i].TRel? {
          return true, Leaf(a);
        }
        i := i + 1;
        if i < |tokens| && tokens[i].TSym? {
          i := i + 1;
          assert tokens[i..] == ts[3..];
          return true, Rel(tokens[i - 2].op, a, tokens[i - 1].atom);
        }
      case TNot =>
        ok, e := Factor();
        e := Not(e);
      case TOpen =>
        ok, e := Expression();
        if ok {
          ok := Check(TClose);
        }
      case _ =>
    }
  }

  /* The grammar of the language, as trees of which the tokens are the leaves:
       expr: and_expr ['||' expr]
       and_expr: factor ['&&' and_expr]
       factor: <symbol> [<relation> <symbol>] | '!' factor | '(' expr ')' */

  datatype Tree =
    | Symbol(atom: Atom)
    | Relation(op: RelOp, lhs: Atom, rhs: Atom)
    | Neg(arg: Tree)
    | Paren(inner: Tree)
    | Conj(first: Tree, more: Tree)
    | Disj(first: Tree, more: Tree)

  predicate IsFactor(t: Tree)
    decreases t, 0
  {
    t.Symbol? || t.Relation? || (t.Neg? && IsFactor(t.arg)) || (t.Paren? && IsExpr(t.inner))
  }

  predicate IsConj(t: Tree)
    decreases t, 1
  {
    IsFactor(t) || (t.Conj? && IsFactor(t.first) && IsConj(t.more))
  }

  predicate IsExpr(t: Tree)
    decreases t, 2
  {
    IsConj(t) || (t.Disj? && IsConj(t.first) && IsExpr(t.more))
  }

  /** The tokens of a tree, from left to right. */
  function Yield(t: Tree): Tokens {
    match t
    case Symbol(a) => [TSym(a)]
    case Relation(op, l, r) => [TSym(l), TRel(op), TSym(r)]
    case Neg(a) => [TNot] + Yield(a)
    case Paren(a) => [TOpen] + Yield(a) + [TClose]
    case Conj(l, r) => Yield(l) + [TAnd] + Yield(r)
    case Disj(l, r) => Yield(l) + [TOr] + Yield(r)
  }

  /** The expression that a tree stands for. */
  function Strip(t: Tree): Expr {
    match t
    case Symbol(a) => Leaf(a)
    case Relation(op, l, r) => Rel(op, l, r)
    case Neg(a) => Not(Strip(a))
    case Paren(a) => Strip(a)
    case Conj(l, r) => And(Strip(l), Strip(r))
    case Disj(l, r) => Or(Strip(l), Strip(r))
  }

  /** The last token of the tree is a symbol that a relation could follow. */
  predicate EndsInSymbol(t: Tree) {
    match t
    case Symbol(_) => true
    case Relation(_, _, _) => false
    case Neg(a) => EndsInSymbol(a)
    case Paren(_) => false
    case Conj(_, r) => EndsInSymbol(r)
    case Disj(_, r) => EndsInSymbol(r)
  }

  /** The tokens `ts` begin with those of the tree `t`, which no token of `rest` continues. */
  ghost predicate ReadsAs(ts: Tokens, t: Tree, rest: Tokens) {
    ts == Yield(t) + rest && (EndsInSymbol(t) ==> !StartsRel(rest))
  }

  /* What the parser makes of printed expressions: chains of one operator associate to the right. */

  function JoinAnd(x: Expr, y: Expr): Expr { if x.And? then And(x.left, JoinAnd(x.right, y)) else And(x, y) }

  function JoinOr(x: Expr, y: Expr): Expr { if x.Or? then Or(x.left, JoinOr(x.right, y)) else Or(x, y) }

  function Normal(e: Expr): (n: Expr)
    ensures n.And? == e.And? && n.Or? == e.Or?
  {
    match e
    case And(l, r) => JoinAnd(Normal(l), Normal(r))
    case Or(l, r) => JoinOr(Normal(l), Normal(r))
    case Not(a) => Not(Normal(a))
    case _ => e
  }

  lemma {:induction false} JoinAndMeaning(x: Expr, y: Expr, v: Valuation)
    ensures Value(JoinAnd(x, y), v) == TriMin(Value(x, v), Value(y, v))
  {
    if x.And? { JoinAndMeaning(x.right, y, v); }
  }

  lemma {:induction false} JoinOrMeaning(x: Expr, y: Expr, v: Valuation)
    ensures Value(JoinOr(x, y), v) == TriMax(Value(x, v), Value(y, v))
  {
    if x.Or? { JoinOrMeaning(x.right, y, v); }
  }

  lemma {:induction false} NormalMeaning(e: Expr, v: Valuation)
    ensures Value(Normal(e), v) == Value(e, v)
  {
    match e
    case And(l, r) => NormalMeaning(l, v); NormalMeaning(r, v); JoinAndMeaning(Normal(l), Normal(r), v);
    case Or(l, r) => NormalMeaning(l, v); NormalMeaning(r, v); JoinOrMeaning(Normal(l), Normal(r), v);
    case Not(a) => NormalMeaning(a, v);
    case _ =>
  }

  lemma {:induction false} JoinAndAssoc(x: Expr, y: Expr, z: Expr)
    ensures JoinAnd(JoinAnd(x, y), z) == JoinAnd(x, JoinAnd(y, z))
  {
    if x.And? { JoinAndAssoc(x.right, y, z); }
  }

  lemma {:induction false} JoinOrAssoc(x: Expr, y: Expr, z: Expr)
    ensures JoinOr(JoinOr(x, y), z) == JoinOr(x, JoinOr(y, z))
  {
    if x.Or? { JoinOrAssoc(x.right, y, z); }
  }

  /** What ParseAnd returns once the operands that make up `x` have been read. */
  function AndThen(x: Expr, rest: Tokens): Parse {
    if !Starts(rest, TAnd) then Done(x, rest)
    else
      var p := ParseAnd(rest[1..]);
      if p.Fail? then Fail else Done(JoinAnd(x, p.expr), p.rest)
  }

  function OrThen(x: Expr, rest: Tokens): Parse {
    if !Starts(rest, TOr) then Done(x, rest)
    else
      var p := ParseExpr(rest[1..]);
      if p.Fail? then Fail else Done(JoinOr(x, p.expr), p.rest)
  }

  lemma SymbolFactor(a: Atom, rest: Tokens)
    requires !StartsRel(rest)
    ensures ParseFactor([TSym(a)] + rest) == Done(Leaf(a), rest)
  {
    assert ([TSym(a)] + rest)[1..] == rest;
  }

  lemma RelationFactor(op: RelOp, l: Atom, r: Atom, rest: Tokens)
    ensures ParseFactor([TSym(l), TRel(op), TSym(r)] + rest) == Done(Rel(op, l, r), rest)
  {
    var ts := [TSym(l), TRel(op), TSym(r)] + rest;
    assert ts[3..] == rest;
  }

  lemma NotFactor(ts: Tokens)
    requires ParseFactor(ts).Done?
    ensures ParseFactor([TNot] + ts) == Done(Not(ParseFactor(ts).expr), ParseFactor(ts).rest)
  {
    assert ([TNot] + ts)[1..] == ts;
  }

  lemma {:induction false} ParenFactor(e: Expr, rest: Tokens)
    requires ParseExpr(Print(e) + ([TClose] + rest)) == Done(Normal(e), [TClose] + rest)
    ensures ParseFactor(PrintOperand(e, true) + rest) == Done(Normal(e), rest)
  {
    var ts := PrintOperand(e, true) + rest;
    assert ts == [TOpen] + (Print(e) + ([TClose] + rest));
    assert ts[1..] == Print(e) + ([TClose] + rest);
    assert ([TClose] + rest)[1..] == rest;
  }

  /** Parsing a printed expression gives its right-associated form and leaves the tokens after it. */
  lemma {:induction false} WholeRead(e: Expr, rest: Tokens)
    requires !StartsRel(rest) && !Starts(rest, TAnd) && !Starts(rest, TOr)
    ensures ParseExpr(Print(e) + rest) == Done(Normal(e), rest)
    decreases e, 2
  {
    if e.And? {
      AndOperandRead(e, rest);
    } else {
      OrOperandRead(e, rest);
    }
  }

  lemma NotPrint(a: Expr)
    requires !a.Leaf?
    ensures Print(Not(a)) == [TNot] + PrintOperand(a, true)
  {
  }

  lemma NotPrinted(a: Expr, rest: Tokens)
    requires !a.Leaf?
    ensures Print(Not(a)) + rest == [TNot] + (PrintOperand(a, true) + rest)
  {
    hide Print;
    assert Print(Not(a)) == [TNot] + PrintOperand(a, true) by { NotPrint(a); }
  }

  /** Printed symbols, relations and negations are single factors. */
  lemma {:induction false} FactorRead(e: Expr, rest: Tokens)
    requires !e.And? && !e.Or? && !StartsRel(rest)
    ensures ParseFactor(Print(e) + rest) == Done(Normal(e), rest)
    decreases e, 0
  {
    hide ParseFactor, ParseExpr, ParseAnd;
    match e
    case Leaf(a) => SymbolFactor(a, rest);
    case Rel(op, l, r) => RelationFactor(op, l, r, rest);
    case Not(a) =>
      if a.Leaf? {
        SymbolFactor(a.atom, rest);
        NotFactor([TSym(a.atom)] + rest);
        assert Print(e) + rest == [TNot] + ([TSym(a.atom)] + rest);
      } else {
        WholeRead(a, [TClose] + rest);
        ParenFactor(a, rest);
        NotFactor(PrintOperand(a, true) + rest);
        NotPrinted(a, rest);
      }
  }

  /** An operand of `&&`, in parentheses when it is a disjunction. */
  lemma {:induction false} AndOperandRead(e: Expr, rest: Tokens)
    requires !StartsRel(rest)
    ensures ParseAnd(PrintOperand(e, e.Or?) + rest) == AndThen(Normal(e), rest)
    decreases e, if e.Or? then 3 else 1
  {
    match e
    case And(l, r) =>
      var tail := PrintOperand(r, r.Or?) + rest;
      assert Print(e) + rest == PrintOperand(l, l.Or?) + ([TAnd] + tail);
      AndOperandRead(l, [TAnd] + tail);
      assert ([TAnd] + tail)[1..] == tail;
      AndOperandRead(r, rest);
      if Starts(rest, TAnd) && ParseAnd(rest[1..]).Done? {
        JoinAndAssoc(Normal(l), Normal(r), ParseAnd(rest[1..]).expr);
      }
    case Or(_, _) =>
      WholeRead(e, [TClose] + rest);
      ParenFactor(e, rest);
    case _ => FactorRead(e, rest);
  }

  /** An operand of `||`, in parentheses when it is a conjunction. */
  lemma {:induction false} OrOperandRead(e: Expr, rest: Tokens)
    requires !StartsRel(rest) && !Starts(rest, TAnd)
    ensures ParseExpr(PrintOperand(e, e.And?) + rest) == OrThen(Normal(e), rest)
    decreases e, if e.And? then 3 else 1
  {
    match e
    case Or(l, r) =>
      var tail := PrintOperand(r, r.And?) + rest;
      assert Print(e) + rest == PrintOperand(l, l.And?) + ([TOr] + tail);
      OrOperandRead(l, [TOr] + tail);
      assert ([TOr] + tail)[1..] == tail;
      OrOperandRead(r, rest);
      if Starts(rest, TOr) && ParseExpr(rest[1..]).Done? {
        JoinOrAssoc(Normal(l), Normal(r), ParseExpr(rest[1..]).expr);
      }
    case And(_, _) =>
      WholeRead(e, [TClose] + rest);
      ParenFactor(e, rest);
    case _ => FactorRead(e, rest);
  }

  /* The parser reads exactly the language of the grammar. */

  lemma {:induction false} FactorComplete(ts: Tokens, t: Tree, rest: Tokens)
    requires IsFactor(t) && ReadsAs(ts, t, rest)
    ensures ParseFactor(ts) == Done(Strip(t), rest)
    decreases t, 0
  {
    match t
    case Symbol(a) => SymbolFactor(a, rest);
    case Relation(op, l, r) => RelationFactor(op, l, r, rest);
    case Neg(a) =>
      FactorComplete(Yield(a) + rest, a, rest);
      assert ts == [TNot] + (Yield(a) + rest);
      NotFactor(Yield(a) + rest);
    case Paren(a) =>
      var inner := Yield(a) + ([TClose] + rest);
      assert ts == [TOpen] + inner;
      ExprComplete(inner, a, [TClose] + rest);
      assert ts[1..] == inner && ([TClose] + rest)[1..] == rest;
  }

  lemma {:induction false} ConjComplete(ts: Tokens, t: Tree, rest: Tokens)
    requires IsConj(t) && ReadsAs(ts, t, rest) && !Starts(rest, TAnd)
    ensures ParseAnd(ts) == Done(Strip(t), rest)
    decreases t, 1
  {
    if IsFactor(t) {
      FactorComplete(ts, t, rest);
    } else {
      var tail := Yield(t.more) + rest;
      assert ts == Yield(t.first) + ([TAnd] + tail);
      FactorComplete(ts, t.first, [TAnd] + tail);
      assert ([TAnd] + tail)[1..] == tail;
      ConjComplete(tail, t.more, rest);
    }
  }

  /** Every derivation of the grammar is read, as the expression that it stands for. */
  lemma {:induction false} ExprComplete(ts: Tokens, t: Tree, rest: Tokens)
    requires IsExpr(t) && ReadsAs(ts, t, rest) && !Starts(rest, TAnd) && !Starts(rest, TOr)
    ensures ParseExpr(ts) == Done(Strip(t), rest)
    decreases t, 2
  {
    if IsConj(t) {
      ConjComplete(ts, t, rest);
    } else {
      var tail := Yield(t.more) + rest;
      assert ts == Yield(t.first) + ([TOr] + tail);
      ConjComplete(ts, t.first, [TOr] + tail);
      assert ([TOr] + tail)[1..] == tail;
      ExprComplete(tail, t.more, rest);
    }
  }

  lemma ParenReads(ts: Tokens, a: Tree, rest: Tokens)
    requires Starts(ts, TOpen) && ReadsAs(ts[1..], a, rest) && Starts(rest, TClose)
    ensures ReadsAs(ts, Paren(a), rest[1..])
  {
    assert ts == [TOpen] + ts[1..] && rest == [TClose] + rest[1..];
  }

  lemma NegReads(ts: Tokens, a: Tree, rest: Tokens)
    requires Starts(ts, TNot) && ReadsAs(ts[1..], a, rest)
    ensures ReadsAs(ts, Neg(a), rest)
  {
    assert ts == [TNot] + ts[1..];
  }

  lemma {:induction false} FactorSound(ts: Tokens) returns (t: Tree)
    requires ParseFactor(ts).Done?
    ensures IsFactor(t) && ReadsAs(ts, t, ParseFactor(ts).rest) && Strip(t) == ParseFactor(ts).expr
    decreases |ts|, 0
  {
    hide ParseAnd, ParseExpr, IsConj, IsExpr;
    match ts[0]
    case TSym(a) =>
      if StartsRel(ts[1..]) {
        t := Relation(ts[1].op, a, ts[2].atom);
        assert ts == [ts[0], ts[1], ts[2]] + ts[3..];
      } else {
        t := Symbol(a);
        assert ts == [ts[0]] + ts[1..];
      }
    case TNot =>
      var a := FactorSound(ts[1..]);
      t := Neg(a);
      NegReads(ts, a, ParseFactor(ts[1..]).rest);
    case TOpen =>
      var a := ExprSound(ts[1..]);
      t := Paren(a);
      ParenReads(ts, a, ParseExpr(ts[1..]).rest);
  }

  lemma {:induction false} ConjSound(ts: Tokens) returns (t: Tree)
    requires ParseAnd(ts).Done?
    ensures IsConj(t) && ReadsAs(ts, t, ParseAnd(ts).rest) && Strip(t) == ParseAnd(ts).expr
    ensures !Starts(ParseAnd(ts).rest, TAnd)
    decreases |ts|, 1
  {
    hide ParseFactor, IsFactor;
    var p := ParseFactor(ts);
    t := FactorSound(ts);
    if Starts(p.rest, TAnd) {
      assert p.rest == [TAnd] + p.rest[1..];
      var more := ConjSound(p.rest[1..]);
      t := Conj(t, more);
    }
  }

  /** What is read is a derivation of the grammar that cannot be continued. */
  lemma {:induction false} ExprSound(ts: Tokens) returns (t: Tree)
    requires ParseExpr(ts).Done?
    ensures IsExpr(t) && ReadsAs(ts, t, ParseExpr(ts).rest) && Strip(t) == ParseExpr(ts).expr
    ensures !Starts(ParseExpr(ts).rest, TAnd) && !Starts(ParseExpr(ts).rest, TOr)
    decreases |ts|, 2
  {
    hide ParseFactor, ParseAnd, IsFactor, IsConj;
    var p := ParseAnd(ts);
    t := ConjSound(ts);
    if Starts(p.rest, TOr) {
      assert p.rest == [TOr] + p.rest[1..];
      var more := ExprSound(p.rest[1..]);
      t := Disj(t, more);
    }
  }

  /** The parser succeeds with `e` and `rest` exactly when the grammar derives the tokens before `rest`, as a tree
      that stands for `e` and that the tokens after it do not continue. */
  lemma Grammatical(ts: Tokens, e: Expr, rest: Tokens)
    ensures ParseExpr(ts) == Done(e, rest) <==>
      && !Starts(rest, TAnd) && !Starts(rest, TOr)
      && exists t :: IsExpr(t) && ReadsAs(ts, t, rest) && Strip(t) == e
  {
    if ParseExpr(ts) == Done(e, rest) {
      var t := ExprSound(ts);
    }
    if t :| IsExpr(t) && ReadsAs(ts, t, rest) && Strip(t) == e && !Starts(rest, TAnd) && !Starts(rest, TOr) {
      ExprComplete(ts, t, rest);
    }
  }

  lemma Regroup(a: Tokens, b: Tokens, c: Tokens, d: Tokens)
    ensures a + b + c + d == a + (b + c + d)
  {
  }

  /** For any factors, `&&` binds closer than a `||` after it. */
  lemma AndBeforeOr(x: Tree, y: Tree, z: Tree)
    requires IsFactor(x) && IsFactor(y) && IsFactor(z)
    ensures ParseExpr(Yield(x) + [TAnd] + Yield(y) + [TOr] + Yield(z))
      == Done(Or(And(Strip(x), Strip(y)), Strip(z)), [])
  {
    hide ParseExpr, IsFactor;
    var xy := Conj(x, y);
    assert IsConj(y) && IsConj(xy) && IsConj(z) && IsExpr(z) && IsExpr(Disj(xy, z));
    ExprComplete(Yield(Disj(xy, z)), Disj(xy, z), []);
  }

  /** For any factors, `&&` binds closer than a `||` before it. */
  lemma OrAfterAnd(x: Tree, y: Tree, z: Tree)
    requires IsFactor(x) && IsFactor(y) && IsFactor(z)
    ensures ParseExpr(Yield(x) + [TOr] + Yield(y) + [TAnd] + Yield(z))
      == Done(Or(Strip(x), And(Strip(y), Strip(z))), [])
  {
    hide ParseExpr, IsFactor;
    var yz := Conj(y, z);
    assert IsConj(z) && IsConj(yz) && IsConj(x) && IsExpr(yz) && IsExpr(Disj(x, yz));
    Regroup(Yield(x) + [TOr], Yield(y), [TAnd], Yield(z));
    ExprComplete(Yield(Disj(x, yz)), Disj(x, yz), []);
  }

  /** `!` binds closer than `&&`, and a relation closer than `!`. */
  lemma NotBeforeAnd(x: Tree, y: Tree, op: RelOp, a: Atom, b: Atom)
    requires IsFactor(x) && IsFactor(y)
    ensures ParseExpr([TNot] + Yield(x) + [TAnd] + Yield(y)) == Done(And(Not(Strip(x)), Strip(y)), [])
    ensures ParseExpr([TNot, TSym(a), TRel(op), TSym(b)]) == Done(Not(Rel(op, a, b)), [])
  {
    hide ParseExpr;
    assert IsFactor(Neg(x)) && IsConj(Conj(Neg(x), y));
    ExprComplete([TNot] + Yield(x) + [TAnd] + Yield(y), Conj(Neg(x), y), []);
    var r := Relation(op, a, b);
    assert IsFactor(r) && IsFactor(Neg(r)) && IsConj(Neg(r));
    ExprComplete([TNot, TSym(a), TRel(op), TSym(b)], Neg(r), []);
  }

  /** Parsing what expr_str prints gives an expression with the same value under every assignment. */
  lemma RoundTrip(e: Expr, rest: Tokens, v: Valuation)
    requires !StartsRel(rest) && !Starts(rest, TAnd) && !Starts(rest, TOr)
    ensures var p := ParseExpr(Print(e) + rest);
      p.Done? && p.rest == rest && Value(p.expr, v) == Value(e, v)
  {
    WholeRead(e, rest);
    NormalMeaning(e, v);
  }

  /** The right-associated form is reached in one round: printing it gives the same tokens. */
  lemma {:induction false} JoinAndPrint(x: Expr, y: Expr)
    ensures Print(JoinAnd(x, y)) == PrintOperand(x, x.Or?) + [TAnd] + PrintOperand(y, y.Or?)
  {
    if x.And? {
      JoinAndPrint(x.right, y);
      assert JoinAnd(x.right, y).And?;
    }
  }

  lemma {:induction false} JoinOrPrint(x: Expr, y: Expr)
    ensures Print(JoinOr(x, y)) == PrintOperand(x, x.And?) + [TOr] + PrintOperand(y, y.And?)
  {
    if x.Or? {
      JoinOrPrint(x.right, y);
      assert JoinOr(x.right, y).Or?;
    }
  }

  lemma {:induction false} NormalPrint(e: Expr)
    ensures Print(Normal(e)) == Print(e)
  {
    match e
    case And(l, r) => NormalPrint(l); NormalPrint(r); JoinAndPrint(Normal(l), Normal(r));
    case Or(l, r) => NormalPrint(l); NormalPrint(r); JoinOrPrint(Normal(l), Normal(r));
    case Not(a) => NormalPrint(a); assert Normal(a).Leaf? == a.Leaf?;
    case _ =>
  }
}
