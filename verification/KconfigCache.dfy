/** The demand-driven value cache of Kconfiglib symbols and its early-stopping invalidation
    (`tools/kconfiglib.py`), for non-choice bool and tristate symbols and a fixed MODULES value. */
module KconfigCache {
  import opened Options
  import opened KconfigExpr
  import opened Seqs

  /** The type of a symbol; a symbol that is only mentioned is undefined. */
  datatype Kind = Undefined | Bool | Tristate

  /** `prompts` holds the conditions of the menu nodes that have a prompt. */
  datatype Symbol = Symbol(
    kind: Kind,
    prompts: seq<Expr>,
    defaults: seq<(Expr, Expr)>,
    revDep: Expr,
    weakRevDep: Expr,
    directDep: Expr)

  /* One evaluation step: the value of a symbol from the values of the symbols it refers to,
     together with the set of symbols that the step looks at. */

  function PromptMax(ps: seq<Expr>, v: Valuation): Tri {
    if ps == [] then 0 else TriMax(Value(ps[0], v), PromptMax(ps[1..], v))
  }

  function PromptReads(ps: seq<Expr>, v: Valuation): set<Sym> {
    if ps == [] then {} else Reads(ps[0], v) + PromptReads(ps[1..], v)
  }

  /** _visibility: m is promoted to y for a symbol whose effective type is bool. */
  function VisStep(s: Symbol, bool_: bool, v: Valuation): Tri {
    var vis := PromptMax(s.prompts, v);
    if vis == 1 && bool_ then 2 else vis
  }

  /** The value given by the first default whose condition is not n. */
  function DefaultValue(ds: seq<(Expr, Expr)>, v: Valuation): Tri {
    if ds == [] then 0
    else if Value(ds[0].1, v) != 0 then TriMin(Value(ds[0].0, v), Value(ds[0].1, v))
    else DefaultValue(ds[1..], v)
  }

  function DefaultReads(ds: seq<(Expr, Expr)>, v: Valuation): set<Sym> {
    if ds == [] then {}
    else Reads(ds[0].1, v) + if Value(ds[0].1, v) != 0 then Reads(ds[0].0, v) else DefaultReads(ds[1..], v)
  }

  /** Value before selects: the user value when the symbol is visible, else defaults and implies. */
  function OwnValue(s: Symbol, user: Option<Tri>, vis: Tri, v: Valuation): Tri {
    if vis != 0 && user.Some? then TriMin(user.value, vis)
    else
      var d, weak := DefaultValue(s.defaults, v), Value(s.weakRevDep, v);
      if weak != 0 && Value(s.directDep, v) != 0 then TriMax(weak, d) else d
  }

  function OwnReads(s: Symbol, user: Option<Tri>, vis: Tri, v: Valuation): set<Sym> {
    if vis != 0 && user.Some? then {}
    else DefaultReads(s.defaults, v) + Reads(s.weakRevDep, v)
         + if Value(s.weakRevDep, v) != 0 then Reads(s.directDep, v) else {}
  }

  /** Selects are a lower bound. */
  function Selected(s: Symbol, own: Tri, v: Valuation): Tri {
    if Value(s.revDep, v) != 0 then TriMax(Value(s.revDep, v), own) else own
  }

  function SelectReads(s: Symbol, v: Valuation): set<Sym> {
    Reads(s.revDep, v) + if Value(s.revDep, v) != 0 then Reads(s.directDep, v) else {}
  }

  /** Symbol.tri_value. An undefined symbol is n, whatever selects it. */
  function TriStep(s: Symbol, bool_: bool, user: Option<Tri>, v: Valuation): Tri {
    var val := Selected(s, OwnValue(s, user, VisStep(s, bool_, v), v), v);
    if s.kind.Undefined? then 0
    else if val == 1 && (bool_ || Value(s.weakRevDep, v) == 2) then 2 else val
  }

  function TriReads(s: Symbol, bool_: bool, user: Option<Tri>, v: Valuation): set<Sym> {
    var vis := VisStep(s, bool_, v);
    if s.kind.Undefined? then {}
    else
      PromptReads(s.prompts, v) + OwnReads(s, user, vis, v) + SelectReads(s, v)
      + if Selected(s, OwnValue(s, user, vis, v), v) == 1 && !bool_ then Reads(s.weakRevDep, v) else {}
  }

  function PromptRefs(ps: seq<Expr>): set<Sym> { if ps == [] then {} else Refs(ps[0]) + PromptRefs(ps[1..]) }

  function DefaultRefs(ds: seq<(Expr, Expr)>): set<Sym> {
    if ds == [] then {} else Refs(ds[0].0) + Refs(ds[0].1) + DefaultRefs(ds[1..])
  }

  /** Every symbol that a property of `s` mentions, unless `s` is undefined. */
  function SymbolRefs(s: Symbol): set<Sym> {
    if s.kind.Undefined? then {}
    else PromptRefs(s.prompts) + DefaultRefs(s.defaults) + Refs(s.revDep) + Refs(s.weakRevDep) + Refs(s.directDep)
  }

  predicate Agree(r: set<Sym>, v: Valuation, w: Valuation) { forall x :: x in r ==> At(v, x) == At(w, x) }

  lemma {:induction false} PromptsDecide(ps: seq<Expr>, v: Valuation, w: Valuation)
    ensures PromptReads(ps, v) <= PromptRefs(ps)
    ensures Agree(PromptReads(ps, v), v, w) ==>
              PromptMax(ps, v) == PromptMax(ps, w) && PromptReads(ps, v) == PromptReads(ps, w)
  {
    if ps != [] {
      PromptsDecide(ps[1..], v, w);
      if Agree(PromptReads(ps, v), v, w) { ReadsDecide(ps[0], v, w); }
    }
  }

  lemma {:induction false} DefaultsDecide(ds: seq<(Expr, Expr)>, v: Valuation, w: Valuation)
    ensures DefaultReads(ds, v) <= DefaultRefs(ds)
    ensures Agree(DefaultReads(ds, v), v, w) ==>
              DefaultValue(ds, v) == DefaultValue(ds, w) && DefaultReads(ds, v) == DefaultReads(ds, w)
  {
    if ds != [] {
      DefaultsDecide(ds[1..], v, w);
      if Agree(DefaultReads(ds, v), v, w) {
        ReadsDecide(ds[0].1, v, w);
        if Value(ds[0].1, v) != 0 { ReadsDecide(ds[0].0, v, w); }
      }
    }
  }

  lemma OwnDecides(s: Symbol, user: Option<Tri>, vis: Tri, v: Valuation, w: Valuation)
    requires Agree(OwnReads(s, user, vis, v), v, w)
    ensures OwnValue(s, user, vis, v) == OwnValue(s, user, vis, w)
    ensures OwnReads(s, user, vis, v) == OwnReads(s, user, vis, w)
  {
    if !(vis != 0 && user.Some?) {
      DefaultsDecide(s.defaults, v, w);
      ReadsDecide(s.weakRevDep, v, w);
      if Value(s.weakRevDep, v) != 0 { ReadsDecide(s.directDep, v, w); }
    }
  }

  lemma SelectDecides(s: Symbol, own: Tri, v: Valuation, w: Valuation)
    requires Agree(SelectReads(s, v), v, w)
    ensures Selected(s, own, v) == Selected(s, own, w) && SelectReads(s, v) == SelectReads(s, w)
  {
    ReadsDecide(s.revDep, v, w);
    if Value(s.revDep, v) != 0 { ReadsDecide(s.directDep, v, w); }
  }

  /** Only a definition can give a prompt. */
  predicate WellFormed(s: Symbol) { s.kind.Undefined? ==> s.prompts == [] }

  lemma PromptEnd(v: Valuation)
    ensures PromptMax([], v) == 0 && PromptReads([], v) == {}
  {
  }

  /** A step depends only on what it reads. */
  lemma StepDecides(s: Symbol, bool_: bool, user: Option<Tri>, v: Valuation, w: Valuation)
    requires WellFormed(s) && Agree(TriReads(s, bool_, user, v), v, w)
    ensures TriStep(s, bool_, user, v) == TriStep(s, bool_, user, w)
    ensures TriReads(s, bool_, user, v) == TriReads(s, bool_, user, w)
    ensures VisStep(s, bool_, v) == VisStep(s, bool_, w)
  {
    hide OwnValue, OwnReads, Selected, SelectReads, PromptReads, PromptMax, Value, Reads;
    if s.kind.Undefined? {
      PromptEnd(v);
      PromptEnd(w);
      return;
    }
    PromptsDecide(s.prompts, v, w);
    var vis := VisStep(s, bool_, v);
    OwnDecides(s, user, vis, v, w);
    SelectDecides(s, OwnValue(s, user, vis, v), v, w);
    if Selected(s, OwnValue(s, user, vis, v), v) == 1 && !bool_ { ReadsDecide(s.weakRevDep, v, w); }
  }

  lemma StepReadsRefs(s: Symbol, bool_: bool, user: Option<Tri>, v: Valuation)
    requires WellFormed(s)
    ensures TriReads(s, bool_, user, v) <= SymbolRefs(s)
    ensures PromptReads(s.prompts, v) <= TriReads(s, bool_, user, v)
  {
    PromptsDecide(s.prompts, v, v);
    DefaultsDecide(s.defaults, v, v);
  }

  /* The whole configuration. */

  datatype Config = Config(syms: map<Sym, Symbol>, modules: bool)

  /** The effective type: tristate symbols act as bool symbols when modules are off. */
  predicate IsBool(c: Config, s: Sym)
    requires s in c.syms
  {
    !c.syms[s].kind.Tristate? || !c.modules
  }

  ghost predicate Outranks(c: Config, rank: map<Sym, nat>, s: Sym, refs: set<Sym>)
    requires rank.Keys == c.syms.Keys && s in c.syms
  {
    forall x :: x in refs ==> x in c.syms && rank[x] < rank[s]
  }

  /** A reference is to a symbol with a type, and an undefined symbol occurs by its name. */
  predicate AtomFits(c: Config, a: Atom) {
    match a
    case Lit(_) => true
    case Ref(s) => s in c.syms && !c.syms[s].kind.Undefined?
    case Name(_, s) => s.Some? ==> s.value in c.syms && c.syms[s.value].kind.Undefined?
  }

  predicate ExprFits(c: Config, e: Expr) {
    match e
    case Leaf(a) => AtomFits(c, a)
    case And(l, r) => ExprFits(c, l) && ExprFits(c, r)
    case Or(l, r) => ExprFits(c, l) && ExprFits(c, r)
    case Not(a) => ExprFits(c, a)
    case Rel(_, l, r) => AtomFits(c, l) && AtomFits(c, r)
  }

  predicate SymbolFits(c: Config, s: Symbol) {
    && ExprFits(c, s.revDep) && ExprFits(c, s.weakRevDep) && ExprFits(c, s.directDep)
    && (forall e :: e in s.prompts ==> ExprFits(c, e))
    && forall d :: d in s.defaults ==> ExprFits(c, d.0) && ExprFits(c, d.1)
  }

  /** No dependency loops: every symbol outranks the symbols its properties mention. */
  ghost predicate Acyclic(c: Config, rank: map<Sym, nat>) {
    && rank.Keys == c.syms.Keys
    && (forall s :: s in c.syms ==> Outranks(c, rank, s, SymbolRefs(c.syms[s])) && WellFormed(c.syms[s]))
    && forall s :: s in c.syms ==> SymbolFits(c, c.syms[s])
  }

  function UserOf(user: map<Sym, Tri>, s: Sym): Option<Tri> { if s in user then Some(user[s]) else None }

  /** A from-scratch evaluation of symbol `s` that uses no cache. */
  ghost function Scratch(c: Config, rank: map<Sym, nat>, user: map<Sym, Tri>, s: Sym): Tri
    requires Acyclic(c, rank) && s in c.syms
    decreases rank[s]
  {
    TriStep(c.syms[s], IsBool(c, s), UserOf(user, s),
            map x | x in c.syms && rank[x] < rank[s] :: Scratch(c, rank, user, x))
  }

  ghost function Values(c: Config, rank: map<Sym, nat>, user: map<Sym, Tri>): Valuation
    requires Acyclic(c, rank)
  {
    map x | x in c.syms :: Scratch(c, rank, user, x)
  }

  lemma ScratchIsStep(c: Config, rank: map<Sym, nat>, user: map<Sym, Tri>, s: Sym)
    requires Acyclic(c, rank) && s in c.syms
    ensures Scratch(c, rank, user, s) == TriStep(c.syms[s], IsBool(c, s), UserOf(user, s), Values(c, rank, user))
  {
    var v := map x | x in c.syms && rank[x] < rank[s] :: Scratch(c, rank, user, x);
    StepReadsRefs(c.syms[s], IsBool(c, s), UserOf(user, s), v);
    StepDecides(c.syms[s], IsBool(c, s), UserOf(user, s), v, Values(c, rank, user));
  }

  /* What the value of a symbol is. */

  /** At least every prompt condition and one of them, if not n; m becomes y for what acts as bool. */
  ghost predicate IsVisibility(c: Config, s: Sym, w: Valuation, vis: Tri)
    requires s in c.syms
  {
    var tristate := c.syms[s].kind.Tristate? && c.modules;
    && (forall p :: p in c.syms[s].prompts ==> Value(p, w) <= vis)
    && (vis == 0 || exists p ::
          p in c.syms[s].prompts && (Value(p, w) == vis || (!tristate && Value(p, w) == 1 && vis == 2)))
    && (vis == 1 ==> tristate)
  }

  /** The first default whose condition is not n, as far as the condition allows, and n without one. */
  ghost predicate IsDefault(ds: seq<(Expr, Expr)>, w: Valuation, d: Tri) {
    || (d == 0 && forall i :: 0 <= i < |ds| ==> Value(ds[i].1, w) == 0)
    || exists i :: 0 <= i < |ds| && Value(ds[i].1, w) != 0
         && (forall j :: 0 <= j < i ==> Value(ds[j].1, w) == 0)
         && d == if Value(ds[i].0, w) < Value(ds[i].1, w) then Value(ds[i].0, w) else Value(ds[i].1, w)
  }

  /** The value `x` of a defined symbol with visibility `vis` and default `d`, when other symbols have the values `w`.
      A bool is never m. A select is a lower bound. Without one, a visible user value counts as far as the
      visibility allows; otherwise the default does, raised by an implied value if the direct dependencies are not
      n. An implied y makes y of m. */
  ghost predicate IsValue(c: Config, user: map<Sym, Tri>, w: Valuation, s: Sym, vis: Tri, d: Tri, x: Tri)
    requires s in c.syms
  {
    var sym := c.syms[s];
    var rev, weak, direct := Value(sym.revDep, w), Value(sym.weakRevDep, w), Value(sym.directDep, w);
    var promoted := !(sym.kind.Tristate? && c.modules) || weak == 2;
    && IsVisibility(c, s, w, vis) && IsDefault(sym.defaults, w, d)
    && (!(sym.kind.Tristate? && c.modules) ==> x != 1)
    && rev <= x
    && var own := if vis != 0 && s in user then if user[s] < vis then user[s] else vis
                  else if direct != 0 && weak > d then weak else d;
       var most := if rev > own then rev else own;
       x == if most == 1 && promoted then 2 else most
  }

  lemma {:induction false} PromptMaxIs(ps: seq<Expr>, w: Valuation)
    ensures forall p :: p in ps ==> Value(p, w) <= PromptMax(ps, w)
    ensures PromptMax(ps, w) == 0 || exists p :: p in ps && Value(p, w) == PromptMax(ps, w)
  {
    if ps != [] {
      PromptMaxIs(ps[1..], w);
      assert ps == [ps[0]] + ps[1..];
      if Value(ps[0], w) == PromptMax(ps, w) {
        assert ps[0] in ps;
      } else if PromptMax(ps, w) != 0 {
        var p :| p in ps[1..] && Value(p, w) == PromptMax(ps[1..], w);
        assert p in ps;
      }
    }
  }

  lemma VisibilityLaw(c: Config, s: Sym, w: Valuation)
    requires s in c.syms
    ensures IsVisibility(c, s, w, VisStep(c.syms[s], IsBool(c, s), w))
  {
    PromptMaxIs(c.syms[s].prompts, w);
  }

  lemma {:induction false} DefaultLaw(ds: seq<(Expr, Expr)>, w: Valuation)
    ensures IsDefault(ds, w, DefaultValue(ds, w))
  {
    if ds != [] && Value(ds[0].1, w) == 0 {
      DefaultLaw(ds[1..], w);
      var rest := ds[1..];
      if i :| 0 <= i < |rest| && Value(rest[i].1, w) != 0 && (forall j :: 0 <= j < i ==> Value(rest[j].1, w) == 0) {
        assert ds[i + 1] == rest[i];
      }
    }
  }

  lemma OwnLaw(sym: Symbol, user: Option<Tri>, vis: Tri, w: Valuation)
    ensures var d, weak, direct := DefaultValue(sym.defaults, w), Value(sym.weakRevDep, w), Value(sym.directDep, w);
      OwnValue(sym, user, vis, w) == if vis != 0 && user.Some? then if user.value < vis then user.value else vis
                                     else if direct != 0 && weak > d then weak else d
  {
    hide Value, DefaultValue;
  }

  lemma SelectLaw(sym: Symbol, own: Tri, w: Valuation)
    ensures Selected(sym, own, w) == if Value(sym.revDep, w) > own then Value(sym.revDep, w) else own
  {
    hide Value;
  }

  lemma StepLaw(c: Config, user: map<Sym, Tri>, w: Valuation, s: Sym)
    requires s in c.syms && !c.syms[s].kind.Undefined?
    ensures var sym := c.syms[s];
      IsValue(c, user, w, s, VisStep(sym, IsBool(c, s), w), DefaultValue(sym.defaults, w),
              TriStep(sym, IsBool(c, s), UserOf(user, s), w))
  {
    hide IsVisibility, IsDefault, VisStep, DefaultValue, Value, OwnValue, Selected;
    var sym := c.syms[s];
    var vis := VisStep(sym, IsBool(c, s), w);
    VisibilityLaw(c, s, w);
    DefaultLaw(sym.defaults, w);
    OwnLaw(sym, UserOf(user, s), vis, w);
    SelectLaw(sym, OwnValue(sym, UserOf(user, s), vis, w), w);
  }

  /** The from-scratch values obey these laws. */
  lemma ValueLaw(c: Config, rank: map<Sym, nat>, user: map<Sym, Tri>, s: Sym)
    requires Acyclic(c, rank) && s in c.syms
    ensures c.syms[s].kind.Undefined? ==> Scratch(c, rank, user, s) == 0
    ensures !c.syms[s].kind.Undefined? ==>
      exists vis, d :: IsValue(c, user, Values(c, rank, user), s, vis, d, Scratch(c, rank, user, s))
  {
    hide Acyclic, Scratch, Values, IsValue, VisStep, DefaultValue, OwnValue, Selected;
    ScratchIsStep(c, rank, user, s);
    if !c.syms[s].kind.Undefined? { StepLaw(c, user, Values(c, rank, user), s); }
  }

  ghost function ReadsOf(c: Config, rank: map<Sym, nat>, user: map<Sym, Tri>, s: Sym): set<Sym>
    requires Acyclic(c, rank) && s in c.syms
  {
    TriReads(c.syms[s], IsBool(c, s), UserOf(user, s), Values(c, rank, user))
  }

  /** The symbols in `keep` have been evaluated, what they read has been evaluated, and `t` is not
      among them: then changing the user value of `t` changes nothing for the symbols in `keep`. */
  lemma {:induction false} Untouched(c: Config, rank: map<Sym, nat>, u: map<Sym, Tri>, w: map<Sym, Tri>,
                                     keep: set<Sym>, s: Sym)
    requires Acyclic(c, rank)
    requires forall x :: x in keep ==> x in c.syms && UserOf(u, x) == UserOf(w, x) && ReadsOf(c, rank, u, x) <= keep
    requires s in keep
    ensures Scratch(c, rank, u, s) == Scratch(c, rank, w, s)
    ensures ReadsOf(c, rank, u, s) == ReadsOf(c, rank, w, s)
    decreases rank[s]
  {
    var v, v' := Values(c, rank, u), Values(c, rank, w);
    StepReadsRefs(c.syms[s], IsBool(c, s), UserOf(u, s), v);
    forall x | x in ReadsOf(c, rank, u, s) ensures At(v, x) == At(v', x) {
      Untouched(c, rank, u, w, keep, x);
    }
    StepDecides(c.syms[s], IsBool(c, s), UserOf(u, s), v, v');
    ScratchIsStep(c, rank, u, s);
    ScratchIsStep(c, rank, w, s);
  }

  lemma PromptlessStep(s: Symbol, bool_: bool, u: Option<Tri>, w: Option<Tri>, v: Valuation)
    requires s.prompts == []
    ensures TriStep(s, bool_, u, v) == TriStep(s, bool_, w, v) && TriReads(s, bool_, u, v) == TriReads(s, bool_, w, v)
  {
  }

  /** User values have no effect on a symbol without a prompt. */
  lemma {:induction false} PromptlessIgnoresUser(c: Config, rank: map<Sym, nat>, u: map<Sym, Tri>, w: map<Sym, Tri>,
                                                 t: Sym, s: Sym)
    requires Acyclic(c, rank) && t in c.syms && s in c.syms && c.syms[t].prompts == []
    requires forall x :: x != t ==> UserOf(u, x) == UserOf(w, x)
    ensures Scratch(c, rank, u, s) == Scratch(c, rank, w, s)
    ensures ReadsOf(c, rank, u, s) == ReadsOf(c, rank, w, s)
    decreases rank[s]
  {
    hide TriStep, TriReads, VisStep, SymbolRefs, PromptReads;
    var v, v' := Values(c, rank, u), Values(c, rank, w);
    StepReadsRefs(c.syms[s], IsBool(c, s), UserOf(u, s), v);
    forall x | x in ReadsOf(c, rank, u, s) ensures At(v, x) == At(v', x) {
      PromptlessIgnoresUser(c, rank, u, w, t, x);
    }
    if s == t { PromptlessStep(c.syms[s], IsBool(c, s), UserOf(u, s), UserOf(w, s), v'); }
    StepDecides(c.syms[s], IsBool(c, s), UserOf(u, s), v, v');
    ScratchIsStep(c, rank, u, s);
    ScratchIsStep(c, rank, w, s);
  }

  lemma PromptAt(ps: seq<Expr>, i: nat, v: Valuation)
    requires i < |ps|
    ensures PromptMax(ps[i..], v) == TriMax(Value(ps[i], v), PromptMax(ps[i + 1..], v))
    ensures PromptReads(ps[i..], v) == Reads(ps[i], v) + PromptReads(ps[i + 1..], v)
  {
    assert ps[i..][1..] == ps[i + 1..];
  }

  lemma DefaultAt(ds: seq<(Expr, Expr)>, i: nat, v: Valuation)
    requires i < |ds|
    ensures var cond := Value(ds[i].1, v);
      && DefaultValue(ds[i..], v) == (if cond != 0 then TriMin(Value(ds[i].0, v), cond)
                                      else DefaultValue(ds[i + 1..], v))
      && DefaultReads(ds[i..], v) == Reads(ds[i].1, v) + if cond != 0 then Reads(ds[i].0, v)
        else DefaultReads(ds[i + 1..], v)
  {
    assert ds[i..][1..] == ds[i + 1..];
  }

  lemma DefaultEnd(v: Valuation)
    ensures DefaultValue([], v) == 0 && DefaultReads([], v) == {}
  {
  }

  lemma {:induction false} PromptRefsAt(ps: seq<Expr>, i: nat)
    requires i < |ps|
    ensures Refs(ps[i]) <= PromptRefs(ps)
  {
    if i > 0 {
      PromptRefsAt(ps[1..], i - 1);
    }
  }

  lemma {:induction false} DefaultRefsAt(ds: seq<(Expr, Expr)>, i: nat)
    requires i < |ds|
    ensures Refs(ds[i].0) + Refs(ds[i].1) <= DefaultRefs(ds)
  {
    if i > 0 {
      DefaultRefsAt(ds[1..], i - 1);
    }
  }

  predicate Extends(big: map<Sym, Tri>, small: map<Sym, Tri>) {
    forall x :: x in small ==> x in big && big[x] == small[x]
  }

  /** The cached values, and whether they can be trusted: every cached value is what a from-scratch
      evaluation gives, and whatever a cached value was computed from is cached as well. */
  datatype Cache = Cache(tri: map<Sym, Tri>, vis: map<Sym, Tri>)

  ghost predicate VisOk(c: Config, rank: map<Sym, nat>, user: map<Sym, Tri>, keys: set<Sym>, s: Sym, val: Tri)
    requires Acyclic(c, rank)
  {
    && s in c.syms
    && val == VisStep(c.syms[s], IsBool(c, s), Values(c, rank, user))
    && PromptReads(c.syms[s].prompts, Values(c, rank, user)) <= keys
  }

  ghost predicate TriOk(c: Config, rank: map<Sym, nat>, user: map<Sym, Tri>, keys: set<Sym>, s: Sym, val: Tri)
    requires Acyclic(c, rank)
  {
    s in c.syms && val == Scratch(c, rank, user, s) && ReadsOf(c, rank, user, s) <= keys
  }

  predicate IsUndefined(c: Config, s: Sym) { s in c.syms && c.syms[s].kind.Undefined? }

  /** The parts of Coherent about cached visibilities and about cached values. */
  ghost predicate AllVisOk(c: Config, rank: map<Sym, nat>, user: map<Sym, Tri>, keys: set<Sym>, vis: map<Sym, Tri>)
    requires Acyclic(c, rank)
  {
    forall s :: s in vis ==> VisOk(c, rank, user, keys, s, vis[s])
  }

  ghost predicate AllTriOk(c: Config, rank: map<Sym, nat>, user: map<Sym, Tri>, keys: set<Sym>, tri: map<Sym, Tri>)
    requires Acyclic(c, rank)
  {
    forall s :: s in tri ==> TriOk(c, rank, user, keys, s, tri[s])
  }

  ghost predicate Coherent(c: Config, rank: map<Sym, nat>, user: map<Sym, Tri>, k: Cache) {
    && Acyclic(c, rank)
    && (forall s :: s in k.tri ==> s in k.vis || IsUndefined(c, s))
    && AllVisOk(c, rank, user, k.tri.Keys, k.vis)
    && AllTriOk(c, rank, user, k.tri.Keys, k.tri)
  }

  /** `after` is a coherent cache that holds at least what the cache `before` held. */
  ghost predicate Grown(c: Config, rank: map<Sym, nat>, user: map<Sym, Tri>, before: Cache, after: Cache) {
    Coherent(c, rank, user, after) && Extends(after.tri, before.tri) && Extends(after.vis, before.vis)
  }

  lemma GrownTwice(c: Config, rank: map<Sym, nat>, user: map<Sym, Tri>, k: Cache, l: Cache, m: Cache)
    requires Grown(c, rank, user, k, l) && Grown(c, rank, user, l, m)
    ensures Grown(c, rank, user, k, m)
    ensures forall r: set<Sym> :: r <= l.tri.Keys ==> r <= m.tri.Keys
    ensures l.vis.Keys <= m.vis.Keys
  {
  }

  lemma GrownSelf(c: Config, rank: map<Sym, nat>, user: map<Sym, Tri>, k: Cache)
    requires Coherent(c, rank, user, k)
    ensures Grown(c, rank, user, k, k)
  {
  }

  lemma OkGrows(c: Config, rank: map<Sym, nat>, user: map<Sym, Tri>, keys: set<Sym>, more: set<Sym>, s: Sym, val: Tri)
    requires Acyclic(c, rank) && keys <= more
    ensures VisOk(c, rank, user, keys, s, val) ==> VisOk(c, rank, user, more, s, val)
    ensures TriOk(c, rank, user, keys, s, val) ==> TriOk(c, rank, user, more, s, val)
  {
    hide Acyclic, Scratch, Values, VisStep, PromptReads, ReadsOf;
  }

  lemma VisStaysOk(c: Config, rank: map<Sym, nat>, user: map<Sym, Tri>, keys: set<Sym>, more: set<Sym>,
                   vis: map<Sym, Tri>)
    requires Acyclic(c, rank) && keys <= more && AllVisOk(c, rank, user, keys, vis)
    ensures AllVisOk(c, rank, user, more, vis)
  {
    hide Acyclic, VisOk;
    forall x | x in vis ensures VisOk(c, rank, user, more, x, vis[x]) {
      OkGrows(c, rank, user, keys, more, x, vis[x]);
    }
  }

  lemma TriStaysOk(c: Config, rank: map<Sym, nat>, user: map<Sym, Tri>, keys: set<Sym>, tri: map<Sym, Tri>, s: Sym,
                   v: Tri)
    requires Acyclic(c, rank) && AllTriOk(c, rank, user, keys, tri) && TriOk(c, rank, user, keys, s, v)
    ensures AllTriOk(c, rank, user, keys + {s}, tri[s := v])
  {
    hide Acyclic, TriOk;
    var next := tri[s := v];
    forall x | x in next ensures TriOk(c, rank, user, keys + {s}, x, next[x]) {
      OkGrows(c, rank, user, keys, keys + {s}, x, next[x]);
    }
  }

  lemma ExtendsWith(m: map<Sym, Tri>, s: Sym, v: Tri)
    requires s in m ==> m[s] == v
    ensures Extends(m[s := v], m) && Extends(m, m) && m[s := v].Keys == m.Keys + {s}
  {
  }

  lemma VisAdded(c: Config, rank: map<Sym, nat>, user: map<Sym, Tri>, keys: set<Sym>, vis: map<Sym, Tri>, s: Sym,
                 v: Tri)
    requires Acyclic(c, rank) && AllVisOk(c, rank, user, keys, vis) && VisOk(c, rank, user, keys, s, v)
    ensures AllVisOk(c, rank, user, keys, vis[s := v])
    ensures s in vis ==> vis[s] == v
  {
    hide Acyclic, VisStep, PromptReads;
    assert s in vis ==> VisOk(c, rank, user, keys, s, vis[s]);
  }

  /** A visibility computed from cached values can be cached. */
  lemma CoherentWithVis(c: Config, rank: map<Sym, nat>, user: map<Sym, Tri>, k: Cache, s: Sym, vis: Tri)
    requires Coherent(c, rank, user, k) && VisOk(c, rank, user, k.tri.Keys, s, vis)
    ensures Grown(c, rank, user, k, k.(vis := k.vis[s := vis]))
  {
    hide AllVisOk, AllTriOk, VisOk, Acyclic, Extends;
    VisAdded(c, rank, user, k.tri.Keys, k.vis, s, vis);
    ExtendsWith(k.vis, s, vis);
    GrownSelf(c, rank, user, k);
  }

  /** A cached value can be used. */
  lemma CachedValue(c: Config, rank: map<Sym, nat>, user: map<Sym, Tri>, k: Cache, s: Sym)
    requires Coherent(c, rank, user, k)
    ensures s in k.tri ==> s in c.syms && k.tri[s] == Scratch(c, rank, user, s)
  {
    assert s in k.tri ==> TriOk(c, rank, user, k.tri.Keys, s, k.tri[s]);
  }

  /** A value computed from cached values can be cached. */
  lemma CoherentWith(c: Config, rank: map<Sym, nat>, user: map<Sym, Tri>, k: Cache, s: Sym, v: Tri)
    requires Coherent(c, rank, user, k) && (s in k.vis || IsUndefined(c, s))
    requires s in c.syms && v == TriStep(c.syms[s], IsBool(c, s), UserOf(user, s), Values(c, rank, user))
    requires ReadsOf(c, rank, user, s) <= k.tri.Keys
    ensures Grown(c, rank, user, k, k.(tri := k.tri[s := v])) && v == Scratch(c, rank, user, s)
  {
    hide Extends, AllVisOk, AllTriOk, Acyclic;
    CachedValue(c, rank, user, k, s);
    ScratchIsStep(c, rank, user, s);
    var tri := k.tri[s := v];
    VisStaysOk(c, rank, user, k.tri.Keys, k.tri.Keys + {s}, k.vis);
    TriStaysOk(c, rank, user, k.tri.Keys, k.tri, s, v);
    ExtendsWith(k.tri, s, v);
    GrownSelf(c, rank, user, k);
  }

  /** The reads still to be cached, after the part `a` of them has been cached. */
  lemma ReadsLeft(reads_: set<Sym>, before: set<Sym>, a: set<Sym>, rest: set<Sym>, after: set<Sym>)
    requires reads_ <= before + (a + rest) && before <= after && a <= after
    ensures reads_ <= after + rest
  {
  }

  lemma NoReadsLeft(reads_: set<Sym>, keys: set<Sym>)
    requires reads_ <= keys + {}
    ensures reads_ <= keys
  {
  }

  lemma CachedVis(c: Config, rank: map<Sym, nat>, user: map<Sym, Tri>, k: Cache, s: Sym)
    requires Coherent(c, rank, user, k)
    ensures s in k.vis ==> VisOk(c, rank, user, k.tri.Keys, s, k.vis[s])
  {
  }

  lemma VisDefined(c: Config, rank: map<Sym, nat>, user: map<Sym, Tri>, k: Cache, s: Sym)
    requires Coherent(c, rank, user, k) && s in k.vis
    ensures s in c.syms
  {
    CachedVis(c, rank, user, k, s);
  }

  ghost predicate InRange(c: Config, rank: map<Sym, nat>, e: Expr, r: nat) {
    rank.Keys == c.syms.Keys && forall x :: x in Refs(e) ==> x in c.syms && rank[x] < r
  }

  lemma DepsInRange(c: Config, rank: map<Sym, nat>, s: Sym)
    requires Acyclic(c, rank) && s in c.syms && !IsUndefined(c, s)
    ensures InRange(c, rank, c.syms[s].revDep, rank[s])
    ensures InRange(c, rank, c.syms[s].weakRevDep, rank[s])
    ensures InRange(c, rank, c.syms[s].directDep, rank[s])
  {
  }

  lemma PromptInRange(c: Config, rank: map<Sym, nat>, s: Sym, i: nat)
    requires Acyclic(c, rank) && s in c.syms && i < |c.syms[s].prompts|
    ensures InRange(c, rank, c.syms[s].prompts[i], rank[s])
  {
    PromptRefsAt(c.syms[s].prompts, i);
  }

  lemma DefaultInRange(c: Config, rank: map<Sym, nat>, s: Sym, i: nat)
    requires Acyclic(c, rank) && s in c.syms && !IsUndefined(c, s) && i < |c.syms[s].defaults|
    ensures InRange(c, rank, c.syms[s].defaults[i].0, rank[s])
    ensures InRange(c, rank, c.syms[s].defaults[i].1, rank[s])
  {
    DefaultRefsAt(c.syms[s].defaults, i);
  }

  function Without(m: map<Sym, Tri>, gone: set<Sym>): (r: map<Sym, Tri>)
    ensures r.Keys == m.Keys - gone && Extends(m, r)
  {
    map x | x in m && x !in gone :: m[x]
  }

  function Dropped(k: Cache, gone: set<Sym>): Cache { Cache(Without(k.tri, gone), Without(k.vis, gone)) }

  /** Dropping one set of symbols and then another drops both. */
  lemma DroppedTwice(k: Cache, a: set<Sym>, b: set<Sym>)
    ensures Dropped(Dropped(k, a), b) == Dropped(k, a + b)
  {
  }

  /** What is kept has read nothing that was dropped. */
  lemma KeptReads(c: Config, rank: map<Sym, nat>, u: map<Sym, Tri>, k: Cache, gone: set<Sym>, x: Sym)
    requires Coherent(c, rank, u, k) && x in k.vis && x !in gone && x in c.syms
    requires forall y :: y in gone ==> y !in SymbolRefs(c.syms[x])
    ensures x in k.tri ==> ReadsOf(c, rank, u, x) <= k.tri.Keys - gone
    ensures PromptReads(c.syms[x].prompts, Values(c, rank, u)) <= k.tri.Keys - gone
  {
    assert VisOk(c, rank, u, k.tri.Keys, x, k.vis[x]);
    assert x in k.tri ==> TriOk(c, rank, u, k.tri.Keys, x, k.tri[x]);
    StepReadsRefs(c.syms[x], IsBool(c, x), UserOf(u, x), Values(c, rank, u));
  }

  /** A visibility is kept when the values it was computed from are. */
  lemma VisKept(c: Config, rank: map<Sym, nat>, u: map<Sym, Tri>, w: map<Sym, Tri>, keep: set<Sym>, x: Sym, val: Tri)
    requires Acyclic(c, rank) && x in c.syms
    requires val == VisStep(c.syms[x], IsBool(c, x), Values(c, rank, u))
    requires PromptReads(c.syms[x].prompts, Values(c, rank, u)) <= keep
    requires forall y :: y in keep ==> y in c.syms && Scratch(c, rank, u, y) == Scratch(c, rank, w, y)
    ensures VisOk(c, rank, w, keep, x, val)
  {
    PromptsDecide(c.syms[x].prompts, Values(c, rank, u), Values(c, rank, w));
  }

  lemma VisStillOk(c: Config, rank: map<Sym, nat>, u: map<Sym, Tri>, w: map<Sym, Tri>, k: Cache, keep: set<Sym>, x: Sym)
    requires Coherent(c, rank, u, k) && x in k.vis && x in c.syms
    requires PromptReads(c.syms[x].prompts, Values(c, rank, u)) <= keep
    requires forall y :: y in keep ==> y in c.syms && Scratch(c, rank, u, y) == Scratch(c, rank, w, y)
    ensures VisOk(c, rank, w, keep, x, k.vis[x])
  {
    hide Scratch, PromptReads;
    assert VisOk(c, rank, u, k.tri.Keys, x, k.vis[x]);
    VisKept(c, rank, u, w, keep, x, k.vis[x]);
  }

  lemma UndefinedReads(c: Config, rank: map<Sym, nat>, user: map<Sym, Tri>, s: Sym)
    requires Acyclic(c, rank) && IsUndefined(c, s)
    ensures ReadsOf(c, rank, user, s) == {}
    ensures forall v: Valuation :: TriStep(c.syms[s], IsBool(c, s), UserOf(user, s), v) == 0
  {
  }

  lemma KeptValues(c: Config, rank: map<Sym, nat>, u: map<Sym, Tri>, w: map<Sym, Tri>, k: Cache, keep: set<Sym>)
    requires Coherent(c, rank, u, k) && keep <= k.tri.Keys
    requires forall x :: x in keep ==> x in c.syms && UserOf(u, x) == UserOf(w, x) && ReadsOf(c, rank, u, x) <= keep
    ensures forall x :: x in keep ==>
      Scratch(c, rank, u, x) == Scratch(c, rank, w, x) && TriOk(c, rank, w, keep, x, k.tri[x])
  {
    forall x | x in keep ensures Scratch(c, rank, u, x) == Scratch(c, rank, w, x)
      && TriOk(c, rank, w, keep, x, k.tri[x]) {
      assert TriOk(c, rank, u, k.tri.Keys, x, k.tri[x]);
      Untouched(c, rank, u, w, keep, x);
    }
  }

  /** Dropping the symbols `gone` is enough after a change to symbol `t`, although the search for
      dependents stops at symbols without cached values. */
  lemma StillCoherent(c: Config, rank: map<Sym, nat>, u: map<Sym, Tri>, w: map<Sym, Tri>, t: Sym, k: Cache,
                      gone: set<Sym>)
    requires Coherent(c, rank, u, k) && t in gone
    requires forall x :: x != t ==> UserOf(u, x) == UserOf(w, x)
    requires forall x, d :: x in gone && d in k.vis && d !in gone ==> x !in SymbolRefs(c.syms[d])
    ensures Coherent(c, rank, w, Dropped(k, gone))
  {
    hide VisStep, PromptReads, ReadsOf, Scratch, SymbolRefs, Values, Acyclic, VisOk, TriOk;
    var keep, l := k.tri.Keys - gone, Dropped(k, gone);
    forall x | x in keep ensures x in c.syms && UserOf(u, x) == UserOf(w, x) && ReadsOf(c, rank, u, x) <= keep {
      CachedValue(c, rank, u, k, x);
      if x in k.vis {
        KeptReads(c, rank, u, k, gone, x);
      } else {
        UndefinedReads(c, rank, u, x);
      }
    }
    KeptValues(c, rank, u, w, k, keep);
    assert l.tri.Keys == keep;
    forall x | x in l.vis ensures VisOk(c, rank, w, keep, x, l.vis[x]) {
      CachedVis(c, rank, u, k, x);
      VisDefined(c, rank, u, k, x);
      KeptReads(c, rank, u, k, gone, x);
      VisStillOk(c, rank, u, w, k, keep, x);
    }
  }

  /** Nothing needs to be dropped when the symbol that changes has no prompt. */
  lemma PromptlessCoherent(c: Config, rank: map<Sym, nat>, u: map<Sym, Tri>, w: map<Sym, Tri>, t: Sym, k: Cache)
    requires Coherent(c, rank, u, k) && t in c.syms && c.syms[t].prompts == []
    requires forall x :: x != t ==> UserOf(u, x) == UserOf(w, x)
    ensures Coherent(c, rank, w, k)
  {
    var keep := k.tri.Keys;
    forall x | x in keep ensures Scratch(c, rank, u, x) == Scratch(c, rank, w, x)
      && TriOk(c, rank, w, keep, x, k.tri[x]) {
      assert TriOk(c, rank, u, keep, x, k.tri[x]);
      PromptlessIgnoresUser(c, rank, u, w, t, x);
    }
    forall x | x in k.vis ensures VisOk(c, rank, w, keep, x, k.vis[x]) {
      assert VisOk(c, rank, u, keep, x, k.vis[x]);
      VisKept(c, rank, u, w, keep, x, k.vis[x]);
    }
  }

  type Dependents = map<Sym, set<Sym>>

  /** `deps[x]` gains `d` for every `x` in `r`. */
  function AddDependent(deps: Dependents, d: Sym, r: set<Sym>): Dependents {
    map x | x in deps :: if x in r then deps[x] + {d} else deps[x]
  }

  lemma AddTwice(deps: Dependents, d: Sym, r: set<Sym>, q: set<Sym>)
    ensures AddDependent(AddDependent(deps, d, r), d, q) == AddDependent(deps, d, r + q)
  {
  }

  lemma AddNone(deps: Dependents, d: Sym)
    ensures AddDependent(deps, d, {}) == deps
  {
  }

  /** `deps[x]` holds the symbols among `ds` that mention `x`. */
  ghost predicate Built(c: Config, deps: Dependents, ds: set<Sym>) {
    && deps.Keys == c.syms.Keys && ds <= c.syms.Keys
    && forall x :: x in deps ==> forall d :: d in deps[x] <==> d in ds && x in SymbolRefs(c.syms[d])
  }

  lemma UndefinedRefs(c: Config, d: Sym, deps: Dependents)
    requires IsUndefined(c, d)
    ensures AddDependent(deps, d, SymbolRefs(c.syms[d])) == deps
  {
  }

  lemma RefsDefined(c: Config, rank: map<Sym, nat>, d: Sym)
    requires Acyclic(c, rank) && d in c.syms
    ensures SymbolRefs(c.syms[d]) <= c.syms.Keys
  {
    hide SymbolRefs;
    assert Outranks(c, rank, d, SymbolRefs(c.syms[d]));
  }

  lemma BuiltNext(c: Config, deps: Dependents, ds: set<Sym>, d: Sym)
    requires Built(c, deps, ds) && d in c.syms
    ensures Built(c, AddDependent(deps, d, SymbolRefs(c.syms[d])), ds + {d})
  {
    hide SymbolRefs;
    var r, next := SymbolRefs(c.syms[d]), AddDependent(deps, d, SymbolRefs(c.syms[d]));
    forall x, e | x in next ensures e in next[x] <==> e in ds + {d} && x in SymbolRefs(c.syms[e]) {
      assert e in next[x] <==> e in deps[x] || (e == d && x in r);
    }
  }

  /** No dependent of `x` has a cached value. */
  ghost predicate NoneLeft(deps: Dependents, vis: map<Sym, Tri>, x: Sym) {
    x in deps ==> forall d :: d in deps[x] ==> d !in vis
  }

  /** Early-stopping invalidation reaches far enough: after it, what is left in the cache is right
      for the new user values. */
  lemma InvalidatedCoherent(c: Config, rank: map<Sym, nat>, u: map<Sym, Tri>, w: map<Sym, Tri>, t: Sym, k: Cache,
                            gone: set<Sym>, deps: Dependents)
    requires Coherent(c, rank, u, k) && Acyclic(c, rank) && t in gone && Built(c, deps, c.syms.Keys)
    requires forall x :: x != t ==> UserOf(u, x) == UserOf(w, x)
    requires forall x :: x in gone ==> NoneLeft(deps, Dropped(k, gone).vis, x)
    ensures Coherent(c, rank, w, Dropped(k, gone))
  {
    hide SymbolRefs, Acyclic, VisOk, AllTriOk, UserOf;
    forall x, d | x in gone && d in k.vis && d !in gone ensures d in c.syms && x !in SymbolRefs(c.syms[d]) {
      VisDefined(c, rank, u, k, d);
      RefsDefined(c, rank, d);
      assert d in Dropped(k, gone).vis;
      assert NoneLeft(deps, Dropped(k, gone).vis, x);
    }
    StillCoherent(c, rank, u, w, t, k, gone);
  }

  /** The values that set_value accepts for a symbol of the given type. */
  predicate Accepts(s: Symbol, value: int) {
    match s.kind
    case Undefined => false
    case Bool => value == 0 || value == 2
    case Tristate => 0 <= value <= 2
  }

  lemma FewerKeys(m: map<Sym, Tri>, n: map<Sym, Tri>, s: Sym)
    requires n.Keys <= m.Keys - {s}
    ensures |n.Keys| <= |m.Keys| && (s in m ==> |n.Keys| < |m.Keys|)
  {
    SubsetSize(n.Keys, m.Keys - {s});
  }

  class Kconfig {
    const config: Config
    ghost const rank: map<Sym, nat>
    var user: map<Sym, Tri>       // Symbol.user_value
    var cache: Cache                 // Symbol._cached_tri_val and Symbol._cached_vis, where not None
    var dependents: Dependents    // Symbol._dependents

    ghost predicate Ready() reads `user, `cache { Acyclic(config, rank) && Coherent(config, rank, user, cache) }

    /** expr_value */
    method ExprValue(e: Expr, ghost r: nat) returns (v: Tri)
      requires Ready() && InRange(config, rank, e, r)
      modifies `cache
      ensures Grown(config, rank, user, old(cache), cache)
      ensures v == Value(e, Values(config, rank, user)) && Reads(e, Values(config, rank, user)) <= cache.tri.Keys
      decreases r, 1, e
    {
      ghost var w, k := Values(config, rank, user), cache;
      match e
      case Leaf(a) =>
        v := AtomValueOf(a, r);
      case And(left, right) =>
        var v1 := ExprValue(left, r);
        if v1 == 0 {
          return 0;
        }
        ghost var l := cache;
        var v2 := ExprValue(right, r);
        GrownTwice(config, rank, user, k, l, cache);
        v := TriMin(v1, v2);
      case Or(left, right) =>
        var v1 := ExprValue(left, r);
        if v1 == 2 {
          return 2;
        }
        ghost var l := cache;
        var v2 := ExprValue(right, r);
        GrownTwice(config, rank, user, k, l, cache);
        v := TriMax(v1, v2);
      case Not(a) =>
        var v1 := ExprValue(a, r);
        v := 2 - v1;
      case Rel(op, lhs, rhs) =>
        assert InRange(config, rank, Leaf(lhs), r) && InRange(config, rank, Leaf(rhs), r);
        var o1 := OperandValue(lhs, r);
        ghost var l := cache;
        var o2 := OperandValue(rhs, r);
        GrownTwice(config, rank, user, k, l, cache);
        v := if Holds(op, Compared(o1, o2)) then 2 else 0;
    }

    /** What _sym_to_num and str_value give for one operand of a relation. */
    method OperandValue(a: Atom, ghost r: nat) returns (o: Operand)
      requires Ready() && InRange(config, rank, Leaf(a), r)
      modifies `cache
      ensures Grown(config, rank, user, old(cache), cache)
      ensures o == OperandOf(a, Values(config, rank, user)) && OperandReads(a) <= cache.tri.Keys
      decreases r, 0
    {
      match a
      case Lit(x) => o := TriOperand(x);
      case Ref(s) =>
        var v := TriValue(s);
        o := TriOperand(v);
      case Name(name, _) => o := name;
    }

    method AtomValueOf(a: Atom, ghost r: nat) returns (v: Tri)
      requires Ready() && InRange(config, rank, Leaf(a), r)
      modifies `cache
      ensures Grown(config, rank, user, old(cache), cache)
      ensures v == AtomValue(a, Values(config, rank, user)) && AtomRefs(a) <= cache.tri.Keys
      decreases r, 0
    {
      match a
      case Lit(x) => v := x;
      case Ref(s) => v := TriValue(s);
      case Name(_, s) =>
        if s.None? {
          return 0;
        }
        v := TriValue(s.value);
    }

    /** Symbol.visibility */
    method Visibility(s: Sym) returns (vis: Tri)
      requires Ready() && s in config.syms
      modifies `cache
      ensures Grown(config, rank, user, old(cache), cache) && s in cache.vis
      ensures vis == VisStep(config.syms[s], IsBool(config, s), Values(config, rank, user))
      ensures IsVisibility(config, s, Values(config, rank, user), vis)
      ensures PromptReads(config.syms[s].prompts, Values(config, rank, user)) <= cache.tri.Keys
      decreases rank[s], 3
    {
      hide Coherent, Values, VisStep, PromptReads, Extends, IsVisibility;
      VisibilityLaw(config, s, Values(config, rank, user));
      CachedVis(config, rank, user, cache, s);
      GrownSelf(config, rank, user, cache);
      if s in cache.vis {
        return cache.vis[s];
      }
      vis := ComputeVisibility(s);
      assert VisOk(config, rank, user, cache.tri.Keys, s, vis);
      ghost var l := cache;
      CoherentWithVis(config, rank, user, l, s, vis);
      cache := cache.(vis := cache.vis[s := vis]);
      GrownTwice(config, rank, user, old(cache), l, cache);
    }

    /** _visibility */
    method ComputeVisibility(s: Sym) returns (vis: Tri)
      requires Ready() && s in config.syms
      modifies `cache
      ensures Grown(config, rank, user, old(cache), cache)
      ensures vis == VisStep(config.syms[s], IsBool(config, s), Values(config, rank, user))
      ensures PromptReads(config.syms[s].prompts, Values(config, rank, user)) <= cache.tri.Keys
      decreases rank[s], 2
    {
      hide Coherent, Acyclic, Values, InRange, Value, Reads, PromptReads, PromptMax, Extends;
      ghost var w, k := Values(config, rank, user), cache;
      GrownSelf(config, rank, user, k);
      var ps := config.syms[s].prompts;
      var i := 0;
      vis := 0;
      assert ps[0..] == ps;
      while i < |ps|
        invariant 0 <= i <= |ps| && Grown(config, rank, user, k, cache)
        invariant PromptMax(ps, w) == TriMax(vis, PromptMax(ps[i..], w))
        invariant PromptReads(ps, w) <= cache.tri.Keys + PromptReads(ps[i..], w)
      {
        PromptAt(ps, i, w);
        PromptInRange(config, rank, s, i);
        ghost var l := cache;
        var p := ExprValue(ps[i], rank[s]);
        GrownTwice(config, rank, user, k, l, cache);
        ReadsLeft(PromptReads(ps, w), l.tri.Keys, Reads(ps[i], w), PromptReads(ps[i + 1..], w), cache.tri.Keys);
        vis := TriMax(vis, p);
        i := i + 1;
      }
      assert ps[|ps|..] == [];
      PromptEnd(w);
      NoReadsLeft(PromptReads(ps, w), cache.tri.Keys);
      if vis == 1 && IsBool(config, s) {
        vis := 2;
      }
    }

    /** Symbol.tri_value */
    method TriValue(s: Sym) returns (v: Tri)
      requires Ready() && s in config.syms
      modifies `cache
      ensures Grown(config, rank, user, old(cache), cache)
      ensures s in cache.tri && v == Scratch(config, rank, user, s)
      ensures config.syms[s].kind.Undefined? ==> v == 0
      ensures !config.syms[s].kind.Undefined? ==>
        exists vis, d :: IsValue(config, user, Values(config, rank, user), s, vis, d, v)
      decreases rank[s], 5
    {
      hide Coherent, Scratch, Values, TriStep, TriReads, Extends, IsValue;
      ValueLaw(config, rank, user, s);
      CachedValue(config, rank, user, cache, s);
      GrownSelf(config, rank, user, cache);
      if s in cache.tri {
        return cache.tri[s];
      }
      if config.syms[s].kind.Undefined? {
        UndefinedReads(config, rank, user, s);
        v := 0;
      } else {
        v := ComputeTri(s);
      }
      ghost var l := cache;
      CoherentWith(config, rank, user, l, s, v);
      cache := cache.(tri := cache.tri[s := v]);
      GrownTwice(config, rank, user, old(cache), l, cache);
    }

    /** The evaluation in Symbol.tri_value. */
    method ComputeTri(s: Sym) returns (v: Tri)
      requires Ready() && s in config.syms && !config.syms[s].kind.Undefined?
      modifies `cache
      ensures Grown(config, rank, user, old(cache), cache) && s in cache.vis
      ensures v == TriStep(config.syms[s], IsBool(config, s), UserOf(user, s), Values(config, rank, user))
      ensures TriReads(config.syms[s], IsBool(config, s), UserOf(user, s), Values(config, rank, user)) <= cache.tri.Keys
      decreases rank[s], 4
    {
      hide Coherent, Acyclic, Values, InRange, Value, Reads, PromptReads, DefaultReads, DefaultValue;
      hide VisStep, OwnValue, OwnReads, Selected, SelectReads, Extends;
      DepsInRange(config, rank, s);
      ghost var w, k := Values(config, rank, user), cache;
      var sym := config.syms[s];
      var vis := Visibility(s);
      ghost var l := cache;
      var own := OwnValueOf(s, vis);
      GrownTwice(config, rank, user, k, l, cache);
      l := cache;
      var val := SelectedOf(s, own);
      GrownTwice(config, rank, user, k, l, cache);
      v := val;
      if val == 1 {
        if IsBool(config, s) {
          v := 2;
        } else {
          l := cache;
          var weak := ExprValue(sym.weakRevDep, rank[s]);
          GrownTwice(config, rank, user, k, l, cache);
          if weak == 2 {
            v := 2;
          }
        }
      }
    }

    /** The part of Symbol.tri_value for the reverse dependencies; the direct dependencies are only
        read for a warning. */
    method SelectedOf(s: Sym, own: Tri) returns (val: Tri)
      requires Ready() && s in config.syms && !config.syms[s].kind.Undefined?
      modifies `cache
      ensures Grown(config, rank, user, old(cache), cache)
      ensures val == Selected(config.syms[s], own, Values(config, rank, user))
      ensures SelectReads(config.syms[s], Values(config, rank, user)) <= cache.tri.Keys
      decreases rank[s], 3
    {
      hide Coherent, Acyclic, Values, InRange, Value, Reads, Extends;
      DepsInRange(config, rank, s);
      ghost var k := cache;
      val := own;
      var dep := ExprValue(config.syms[s].revDep, rank[s]);
      if dep != 0 {
        ghost var l := cache;
        var direct := ExprValue(config.syms[s].directDep, rank[s]);
        GrownTwice(config, rank, user, k, l, cache);
        val := TriMax(dep, val);
      }
    }

    /** The part of Symbol.tri_value before the reverse dependencies. */
    method OwnValueOf(s: Sym, vis: Tri) returns (val: Tri)
      requires Ready() && s in config.syms && !config.syms[s].kind.Undefined?
      modifies `cache
      ensures Grown(config, rank, user, old(cache), cache)
      ensures val == OwnValue(config.syms[s], UserOf(user, s), vis, Values(config, rank, user))
      ensures OwnReads(config.syms[s], UserOf(user, s), vis, Values(config, rank, user)) <= cache.tri.Keys
      decreases rank[s], 3
    {
      hide Coherent, Acyclic, Values, InRange, Value, Reads, DefaultReads, DefaultValue, Extends;
      DepsInRange(config, rank, s);
      ghost var w, k := Values(config, rank, user), cache;
      GrownSelf(config, rank, user, k);
      if vis != 0 && UserOf(user, s).Some? {
        val := TriMin(UserOf(user, s).value, vis);
      } else {
        val := FirstDefault(s);
        ghost var l := cache;
        var weak := ExprValue(config.syms[s].weakRevDep, rank[s]);
        GrownTwice(config, rank, user, k, l, cache);
        if weak != 0 {
          l := cache;
          var direct := ExprValue(config.syms[s].directDep, rank[s]);
          GrownTwice(config, rank, user, k, l, cache);
          if direct != 0 {
            val := TriMax(weak, val);
          }
        }
      }
    }

    /** The loop over the defaults in Symbol.tri_value. */
    method FirstDefault(s: Sym) returns (val: Tri)
      requires Ready() && s in config.syms && !config.syms[s].kind.Undefined?
      modifies `cache
      ensures Grown(config, rank, user, old(cache), cache)
      ensures val == DefaultValue(config.syms[s].defaults, Values(config, rank, user))
      ensures DefaultReads(config.syms[s].defaults, Values(config, rank, user)) <= cache.tri.Keys
      decreases rank[s], 2
    {
      hide Coherent, Acyclic, Values, InRange, Value, Reads, DefaultReads, DefaultValue, Extends;
      ghost var w, k := Values(config, rank, user), cache;
      GrownSelf(config, rank, user, k);
      var ds := config.syms[s].defaults;
      var i := 0;
      assert ds[0..] == ds;
      while i < |ds|
        invariant 0 <= i <= |ds| && Grown(config, rank, user, k, cache)
        invariant DefaultValue(ds, w) == DefaultValue(ds[i..], w)
        invariant DefaultReads(ds, w) <= cache.tri.Keys + DefaultReads(ds[i..], w)
      {
        DefaultAt(ds, i, w);
        DefaultInRange(config, rank, s, i);
        ghost var l := cache;
        var cond := ExprValue(ds[i].1, rank[s]);
        GrownTwice(config, rank, user, k, l, cache);
        if cond != 0 {
          l := cache;
          var value := ExprValue(ds[i].0, rank[s]);
          GrownTwice(config, rank, user, k, l, cache);
          return TriMin(value, cond);
        }
        ReadsLeft(DefaultReads(ds, w), l.tri.Keys, Reads(ds[i].1, w), DefaultReads(ds[i + 1..], w), cache.tri.Keys);
        i := i + 1;
      }
      assert ds[|ds|..] == [];
      DefaultEnd(w);
      NoReadsLeft(DefaultReads(ds, w), cache.tri.Keys);
      return 0;
    }

    /** _make_depend_on: records that `d` depends on every symbol in `e`. */
    method MakeDependOn(d: Sym, e: Expr)
      requires Refs(e) <= dependents.Keys
      modifies `dependents
      ensures dependents == AddDependent(old(dependents), d, Refs(e))
      decreases e
    {
      ghost var deps := dependents;
      match e
      case Leaf(a) => DependOnAtom(d, a);
      case Not(a) => MakeDependOn(d, a);
      case And(l, r) =>
        MakeDependOn(d, l);
        MakeDependOn(d, r);
        AddTwice(deps, d, Refs(l), Refs(r));
      case Or(l, r) =>
        MakeDependOn(d, l);
        MakeDependOn(d, r);
        AddTwice(deps, d, Refs(l), Refs(r));
      case Rel(_, l, r) =>
        DependOnAtom(d, l);
        DependOnAtom(d, r);
        AddTwice(deps, d, AtomRefs(l), AtomRefs(r));
    }

    method DependOnAtom(d: Sym, a: Atom)
      requires AtomRefs(a) <= dependents.Keys
      modifies `dependents
      ensures dependents == AddDependent(old(dependents), d, AtomRefs(a))
    {
      AddNone(dependents, d);
      var s := if a.Ref? then Some(a.sym) else if a.Name? then a.undefined else None;
      if s.Some? {
        assert s.value in AtomRefs(a);
        dependents := dependents[s.value := dependents[s.value] + {d}];
      }
    }

    /** The loop over the prompt conditions in _build_dep. */
    method DependOnPrompts(d: Sym, ps: seq<Expr>)
      requires PromptRefs(ps) <= dependents.Keys
      modifies `dependents
      ensures dependents == AddDependent(old(dependents), d, PromptRefs(ps))
    {
      var i := 0;
      assert ps[0..] == ps;
      while i < |ps|
        invariant 0 <= i <= |ps| && dependents.Keys == old(dependents.Keys)
        invariant AddDependent(dependents, d, PromptRefs(ps[i..])) == AddDependent(old(dependents), d, PromptRefs(ps))
      {
        PromptRefsAt(ps, i);
        AddTwice(dependents, d, Refs(ps[i]), PromptRefs(ps[i + 1..]));
        assert ps[i..][1..] == ps[i + 1..];
        MakeDependOn(d, ps[i]);
        i := i + 1;
      }
      AddNone(dependents, d);
    }

    /** The loop over the defaults and their conditions in _build_dep. */
    method DependOnDefaults(d: Sym, ds: seq<(Expr, Expr)>)
      requires DefaultRefs(ds) <= dependents.Keys
      modifies `dependents
      ensures dependents == AddDependent(old(dependents), d, DefaultRefs(ds))
    {
      var i := 0;
      assert ds[0..] == ds;
      while i < |ds|
        invariant 0 <= i <= |ds| && dependents.Keys == old(dependents.Keys)
        invariant AddDependent(dependents, d, DefaultRefs(ds[i..])) == AddDependent(old(dependents), d, DefaultRefs(ds))
      {
        DefaultRefsAt(ds, i);
        AddTwice(dependents, d, Refs(ds[i].0), Refs(ds[i].1));
        AddTwice(dependents, d, Refs(ds[i].0) + Refs(ds[i].1), DefaultRefs(ds[i + 1..]));
        assert ds[i..][1..] == ds[i + 1..];
        MakeDependOn(d, ds[i].0);
        MakeDependOn(d, ds[i].1);
        i := i + 1;
      }
      AddNone(dependents, d);
    }

    /** The body of the symbol loop in _build_dep. */
    method DependOnAll(d: Sym)
      requires d in config.syms && !IsUndefined(config, d) && SymbolRefs(config.syms[d]) <= dependents.Keys
      modifies `dependents
      ensures dependents == AddDependent(old(dependents), d, SymbolRefs(config.syms[d]))
    {
      ghost var deps := dependents;
      var s := config.syms[d];
      ghost var p, q, a, b, c := PromptRefs(s.prompts), DefaultRefs(s.defaults), Refs(s.revDep), Refs(s.weakRevDep),
        Refs(s.directDep);
      AddTwice(deps, d, p, q);
      AddTwice(deps, d, p + q, a);
      AddTwice(deps, d, p + q + a, b);
      AddTwice(deps, d, p + q + a + b, c);
      DependOnPrompts(d, s.prompts);
      DependOnDefaults(d, s.defaults);
      MakeDependOn(d, s.revDep);
      MakeDependOn(d, s.weakRevDep);
      MakeDependOn(d, s.directDep);
    }

    ghost predicate DependentsBuilt() reads `dependents { Built(config, dependents, config.syms.Keys) }

    /** _build_dep: afterwards `dependents[x]` is the set of the symbols that mention `x`. */
    method BuildDep()
      requires Acyclic(config, rank) && dependents == map x | x in config.syms :: {}
      modifies `dependents
      ensures DependentsBuilt()
    {
      hide SymbolRefs, Acyclic, AddDependent;
      var todo := config.syms.Keys;
      ghost var done: set<Sym> := {};
      while todo != {}
        invariant todo + done == config.syms.Keys && todo !! done && Built(config, dependents, done)
      {
        var d :| d in todo;
        todo := todo - {d};
        RefsDefined(config, rank, d);
        BuiltNext(config, dependents, done, d);
        if config.syms[d].kind.Undefined? {
          UndefinedRefs(config, d, dependents);
        } else {
          DependOnAll(d);
        }
        done := done + {d};
      }
      assert done == config.syms.Keys;
    }

    ghost predicate Valid() reads this { Ready() && DependentsBuilt() }

    constructor (config: Config, ghost rank: map<Sym, nat>)
      requires Acyclic(config, rank)
      ensures Valid() && this.config == config && this.rank == rank
      ensures cache == Cache(map[], map[]) && user == map[]
    {
      hide Acyclic;
      this.config, this.rank := config, rank;
      user := map[];
      cache := Cache(map[], map[]);
      dependents := map x | x in config.syms :: {};
      new;
      BuildDep();
    }

    /** _rec_invalidate, for a symbol other than MODULES. The symbols that lose their cached values
        are collected in `gone`; whatever depends on one of them has no cached values left. */
    method RecInvalidate(s: Sym) returns (ghost gone: set<Sym>)
      requires DependentsBuilt() && s in config.syms
      modifies `cache
      ensures s in gone && cache == Dropped(old(cache), gone)
      ensures forall x :: x in gone ==> NoneLeft(dependents, cache.vis, x)
      decreases |cache.vis.Keys|, if s in cache.vis then 0 else 1
    {
      hide Extends, SymbolRefs;
      gone := {s};
      cache := Dropped(cache, {s});
      var todo := dependents[s];
      while todo != {}
        invariant s in gone && todo <= dependents[s] && cache == Dropped(old(cache), gone)
        invariant forall d :: d in dependents[s] && d !in todo ==> d !in cache.vis
        invariant forall x :: x in gone && x != s ==> NoneLeft(dependents, cache.vis, x)
        decreases todo
      {
        var item :| item in todo;
        todo := todo - {item};
        if item in cache.vis {
          FewerKeys(old(cache.vis), cache.vis, s);
          ghost var more := RecInvalidate(item);
          DroppedTwice(old(cache), gone, more);
          gone := gone + more;
        }
      }
    }

    /** _rec_invalidate_if_has_prompt, after the user value of `s` has changed from what it was in
        `before`. */
    method InvalidateIfPrompted(s: Sym, ghost before: map<Sym, Tri>)
      requires Acyclic(config, rank) && Coherent(config, rank, before, cache) && DependentsBuilt() && s in config.syms
      requires forall x :: x != s ==> UserOf(before, x) == UserOf(user, x)
      modifies `cache
      ensures Valid()
      ensures Extends(old(cache.tri), cache.tri)
    {
      hide Acyclic, Coherent, Built, UserOf, NoneLeft;
      if config.syms[s].prompts == [] {
        PromptlessCoherent(config, rank, before, user, s, cache);
      } else {
        ghost var k := cache;
        ghost var gone := RecInvalidate(s);
        InvalidatedCoherent(config, rank, before, user, s, k, gone, dependents);
      }
    }

    /** Symbol.set_value */
    method SetValue(s: Sym, value: int) returns (ok: bool)
      requires Valid() && s in config.syms
      modifies `user, `cache
      ensures Valid()
      ensures ok <==>
        || (s in old(user) && old(user)[s] == value)
        || (config.syms[s].kind.Bool? && (value == 0 || value == 2))
        || (config.syms[s].kind.Tristate? && 0 <= value <= 2)
      ensures ok ==> 0 <= value <= 2 && user == old(user)[s := value]
      ensures !ok ==> user == old(user) && cache == old(cache)
    {
      hide Acyclic, Coherent, Built;
      ghost var before := user;
      if UserOf(user, s) == Some(value) {
        return true;
      }
      if !Accepts(config.syms[s], value) {
        return false;
      }
      user := user[s := value];
      InvalidateIfPrompted(s, before);
      return true;
    }

    /** Symbol.unset_value */
    method UnsetValue(s: Sym)
      requires Valid() && s in config.syms
      modifies `user, `cache
      ensures Valid()
      ensures user == old(user) - {s}
    {
      hide Acyclic, Coherent, Built;
      ghost var before := user;
      if s in user {
        user := user - {s};
        InvalidateIfPrompted(s, before);
      }
    }

    /** A read after an assignment sees what a from-scratch evaluation with the new user values gives,
        whatever was cached before. */
    method SetThenRead(s: Sym, value: int, t: Sym) returns (v: Tri)
      requires Valid() && s in config.syms && t in config.syms
      modifies `user, `cache
      ensures Valid() && v == Scratch(config, rank, user, t)
      ensures Accepts(config.syms[s], value) ==> user == old(user)[s := value]
    {
      hide Acyclic, Coherent, Built, Scratch;
      var _ := SetValue(s, value);
      v := TriValue(t);
    }
  }
}
