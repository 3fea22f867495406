/** The argument matchers of the mock library: each constraint is applied to one
    observed argument (`f_`) and yields a bool; `assign` and `retrieve` also write
    into variables that belong to the caller.

    Caller variables live in a store from addresses to values. Every argument is
    an object at some address (a temporary such as `&i` or `"text"` has an address
    of its own), so identity (`same`) and address-taking (`retrieve`) are plain
    comparisons and constructions on addresses. Most combinations of constraint and
    argument types that the C++ compiler would refuse are the verdict `Rejected`; `same`
    across unrelated types and writes into `const` variables are accepted. */
module Constraints {
  import opened Wrappers
  import opened Text

  type Addr = nat

  /** Identifies a function `bool()`; what it returns is given by the caller's `invoke`. */
  type FnId = nat

  /** The static type of a variable or operand (const-ness is not distinguished). */
  datatype Type = IntType | StringType | CharPtrType | PointerType(pointee: Type) | FunctionType

  /** Levels of pointer indirection: 0 for `int`, 1 for `int*`, 2 for `int**`. */
  function Indirection(t: Type): nat {
    if t.PointerType? then 1 + Indirection(t.pointee) else 0
  }

  /** A pointer type is never the type it points to. */
  lemma PointerTypeDiffers(t: Type)
    ensures PointerType(t) != t
  {
    assert Indirection(PointerType(t)) == Indirection(t) + 1;
  }

  datatype Pointer = Null | To(addr: Addr)

  datatype Value =
    | Int(i: int)
    | Str(text: string)                      // std::string
    | CStr(text: string)                     // const char* / char* to a character string
    | Ptr(pointee: Type, target: Pointer)    // T* for some T
    | Fn(id: FnId)                           // pointer to a function returning bool

  function TypeOf(v: Value): Type {
    match v
    case Int(_) => IntType
    case Str(_) => StringType
    case CStr(_) => CharPtrType
    case Ptr(t, _) => PointerType(t)
    case Fn(_) => FunctionType
  }

  /** Both character-string forms, `std::string` and `const char*`. */
  predicate IsText(v: Value) {
    v.Str? || v.CStr?
  }

  /** The caller's variables. */
  type Store = map<Addr, Value>

  /** A non-null pointer value designates a live variable of its pointee type. */
  predicate ValidIn(v: Value, s: Store) {
    v.Ptr? && v.target.To? ==> v.target.addr in s && TypeOf(s[v.target.addr]) == v.pointee
  }

  /** Every pointer stored in a variable designates a live variable of the right type. */
  predicate WellTyped(s: Store) {
    forall a | a in s :: ValidIn(s[a], s)
  }

  /** `s2` has the same variables as `s`, each with the type it had, and is still well typed. */
  predicate SameShape(s: Store, s2: Store) {
    s2.Keys == s.Keys && (forall a | a in s :: TypeOf(s2[a]) == TypeOf(s[a])) && WellTyped(s2)
  }

  /** Writing a value of a variable's own type keeps the store well typed. */
  lemma WriteKeepsShape(s: Store, a: Addr, x: Value)
    requires WellTyped(s) && a in s && TypeOf(x) == TypeOf(s[a]) && ValidIn(x, s)
    ensures SameShape(s, s[a := x])
  {
  }

  /** A comparison operand: a copy taken when the constraint is built, or a live
      reference (`boost::cref`) to a caller variable, read when the constraint is applied. */
  datatype Operand = Snapshot(value: Value) | Live(addr: Addr)

  predicate Bound(o: Operand, s: Store) {
    match o
    case Snapshot(v) => ValidIn(v, s)
    case Live(a) => a in s
  }

  /** The operand's value at the moment of evaluation. */
  function Read(o: Operand, s: Store): (v: Value)
    requires Bound(o, s)
    ensures WellTyped(s) ==> ValidIn(v, s)
    ensures o.Live? ==> v == s[o.addr]
  {
    match o
    case Snapshot(v) => v
    case Live(a) => s[a]
  }

  datatype Relation = Less | Greater | LessEqual | GreaterEqual

  datatype Constraint =
    | Equal(expected: Operand)
    | Compare(rel: Relation, bound: Operand)  // less, greater, less_equal, greater_equal
    | Same(target: Addr)                      // same(x) keeps the address of x
    | Negate
    | Assign(source: Operand)
    | Retrieve(dest: Addr)                    // retrieve(x) keeps the address of x
    | Call(f: FnId)
    | Evaluate
    | Contain(needle: Operand)

  /** The result of applying a constraint: the bool it returns and the caller's
      variables afterwards, or `Rejected` when no overload accepts these types. */
  datatype Verdict = Verdict(matched: bool, after: Store) | Rejected

  /** What applying `c` to the variable at `arg` needs: the argument and every variable
      the constraint refers to exist, and pointers in the store are valid. */
  predicate Ready(c: Constraint, s: Store, arg: Addr) {
    WellTyped(s) && arg in s &&
    match c
    case Equal(e) => Bound(e, s)
    case Compare(_, b) => Bound(b, s)
    case Assign(x) => Bound(x, s)
    case Contain(n) => Bound(n, s)
    case Retrieve(d) => d in s
    case _ => true
  }

  /** Native `==` between two values; `None` where C++ has no such comparison. */
  function NativeEqual(v: Value, w: Value): (r: Option<bool>)
    ensures r.Some? <==> (IsText(v) && IsText(w)) || TypeOf(v) == TypeOf(w)
    ensures IsText(v) && IsText(w) ==> r == Some(v.text == w.text)
    ensures r.Some? && !IsText(v) ==> (r.value <==> v == w)
  {
    if IsText(v) && IsText(w) then Some(v.text == w.text)
    else match (v, w)
      case (Int(i), Int(j)) => Some(i == j)
      case (Ptr(t, p), Ptr(u, q)) => if t == u then Some(p == q) else None
      case (Fn(f), Fn(g)) => Some(f == g)
      case _ => None
  }

  /** `actual rel bound` on integers. */
  function Holds(rel: Relation, actual: int, bound: int): bool {
    match rel
    case Less => actual < bound
    case Greater => actual > bound
    case LessEqual => actual <= bound
    case GreaterEqual => actual >= bound
  }

  /** The store after `assign(x)` is applied to the variable at `arg`: the variable itself
      takes `x` when its type is that of `x`; otherwise, when it is a pointer to that type,
      the variable it points at takes `x` (nothing is written through a null pointer). */
  function AssignEffect(x: Value, s: Store, arg: Addr): (r: Option<Store>)
    requires WellTyped(s) && arg in s && ValidIn(x, s)
    ensures r.Some? ==> SameShape(s, r.value)
    ensures r.Some? <==> TypeOf(s[arg]) == TypeOf(x) || (s[arg].Ptr? && s[arg].pointee == TypeOf(x))
  {
    var actual := s[arg];
    if TypeOf(actual) == TypeOf(x) then
      WriteKeepsShape(s, arg, x);
      Some(s[arg := x])
    else if actual.Ptr? && actual.pointee == TypeOf(x) then
      if actual.target.To? then
        WriteKeepsShape(s, actual.target.addr, x);
        Some(s[actual.target.addr := x])
      else
        Some(s)
    else
      None
  }

  /** The store after `retrieve(d)` is applied to the variable at `arg`: `d` takes the
      argument's value when it has the argument's type, or the argument's address when
      it is a pointer to the argument's type. */
  function RetrieveEffect(d: Addr, s: Store, arg: Addr): (r: Option<Store>)
    requires WellTyped(s) && arg in s && d in s
    ensures r.Some? ==> SameShape(s, r.value)
    ensures r.Some? <==> TypeOf(s[d]) == TypeOf(s[arg]) || TypeOf(s[d]) == PointerType(TypeOf(s[arg]))
  {
    var actual := s[arg];
    if TypeOf(s[d]) == TypeOf(actual) then
      WriteKeepsShape(s, d, actual);
      Some(s[d := actual])
    else if TypeOf(s[d]) == PointerType(TypeOf(actual)) then
      WriteKeepsShape(s, d, Ptr(TypeOf(actual), To(arg)));
      Some(s[d := Ptr(TypeOf(actual), To(arg))])
    else
      None
  }

  /** Applies `c` to the variable at `arg`. `invoke` gives the result of calling each function. */
  function Eval(c: Constraint, s: Store, arg: Addr, invoke: FnId -> bool): (v: Verdict)
    requires Ready(c, s, arg)
    ensures v.Verdict? ==> SameShape(s, v.after)
    ensures v.Verdict? && !c.Assign? && !c.Retrieve? ==> v.after == s
    ensures v.Verdict? && (c.Assign? || c.Retrieve?) ==> v.matched
  {
    var actual := s[arg];
    match c
    case Equal(e) =>
      var r := NativeEqual(Read(e, s), actual);
      if r.Some? then Verdict(r.value, s) else Rejected
    case Compare(rel, b) =>
      var bound := Read(b, s);
      if actual.Int? && bound.Int? then Verdict(Holds(rel, actual.i, bound.i), s) else Rejected
    case Same(t) =>
      Verdict(arg == t, s)
    case Negate =>
      if actual.Ptr? then Verdict(actual.target.Null?, s) else Rejected
    case Assign(x) =>
      var r := AssignEffect(Read(x, s), s, arg);
      if r.Some? then Verdict(true, r.value) else Rejected
    case Retrieve(d) =>
      var r := RetrieveEffect(d, s, arg);
      if r.Some? then Verdict(true, r.value) else Rejected
    case Call(f) =>
      Verdict(invoke(f), s)
    case Evaluate =>
      if actual.Fn? then Verdict(invoke(actual.id), s) else Rejected
    case Contain(n) =>
      var needle := Read(n, s);
      if IsText(needle) && IsText(actual) then Verdict(Occurs(needle.text, actual.text), s) else Rejected
  }

  // ---------------------------------------------------------------------------
  // Caller storage, written in place by assign and retrieve
  // ---------------------------------------------------------------------------

  /** The caller's variables, updated in place when an effecting constraint is applied. */
  class Memory {
    var cells: Store

    ghost predicate Valid()
      reads this
    {
      WellTyped(cells)
    }

    constructor (init: Store)
      requires WellTyped(init)
      ensures Valid() && cells == init
    {
      cells := init;
    }

    /** The caller writes one of its own variables (`j = 3;` between building and applying a constraint). */
    method Set(a: Addr, v: Value)
      requires Valid() && a in cells && TypeOf(v) == TypeOf(cells[a]) && ValidIn(v, cells)
      modifies this
      ensures Valid() && cells == old(cells)[a := v]
    {
      WriteKeepsShape(cells, a, v);
      cells := cells[a := v];
    }

    /** `constraint::f_` on the variable at `arg`: the bool it returns, or `None` when the
        types do not fit; the variables are left as `Eval` says. */
    method Match(c: Constraint, arg: Addr, invoke: FnId -> bool) returns (r: Option<bool>)
      requires Valid() && Ready(c, cells, arg)
      modifies this
      ensures Valid()
      ensures Eval(c, old(cells), arg, invoke).Rejected? ==> r.None? && cells == old(cells)
      ensures Eval(c, old(cells), arg, invoke).Verdict? ==>
                r == Some(Eval(c, old(cells), arg, invoke).matched) &&
                cells == Eval(c, old(cells), arg, invoke).after
    {
      match c {
        case Assign(x) =>
          r := AssignTo(Read(x, cells), arg);
        case Retrieve(d) =>
          r := RetrieveInto(d, arg);
        case _ =>
          var v := Eval(c, cells, arg, invoke);
          r := if v.Verdict? then Some(v.matched) else None;
      }
    }

    /** `assign`: writes `x` into the argument, or through it when it is a pointer. */
    method AssignTo(x: Value, arg: Addr) returns (r: Option<bool>)
      requires Valid() && arg in cells && ValidIn(x, cells)
      modifies this
      ensures Valid()
      ensures AssignEffect(x, old(cells), arg).None? ==> r.None? && cells == old(cells)
      ensures AssignEffect(x, old(cells), arg).Some? ==>
                r == Some(true) && cells == AssignEffect(x, old(cells), arg).value
    {
      var actual := cells[arg];
      if TypeOf(actual) == TypeOf(x) {
        WriteKeepsShape(cells, arg, x);
        cells := cells[arg := x];
        r := Some(true);
      } else if actual.Ptr? && actual.pointee == TypeOf(x) {
        if actual.target.To? {
          WriteKeepsShape(cells, actual.target.addr, x);
          cells := cells[actual.target.addr := x];
        }
        r := Some(true);
      } else {
        r := None;
      }
    }

    /** `retrieve`: stores the argument, or its address, into the variable at `d`. */
    method RetrieveInto(d: Addr, arg: Addr) returns (r: Option<bool>)
      requires Valid() && arg in cells && d in cells
      modifies this
      ensures Valid()
      ensures RetrieveEffect(d, old(cells), arg).None? ==> r.None? && cells == old(cells)
      ensures RetrieveEffect(d, old(cells), arg).Some? ==>
                r == Some(true) && cells == RetrieveEffect(d, old(cells), arg).value
    {
      var actual := cells[arg];
      var destType := TypeOf(cells[d]);
      if destType == TypeOf(actual) {
        WriteKeepsShape(cells, d, actual);
        cells := cells[d := actual];
        r := Some(true);
      } else if destType == PointerType(TypeOf(actual)) {
        var address := Ptr(TypeOf(actual), To(arg));
        WriteKeepsShape(cells, d, address);
        cells := cells[d := address];
        r := Some(true);
      } else {
        r := None;
      }
    }
  }
}
