/** What the constraint tests promise, stated for all stores and arguments,
    with the test scenarios themselves as instances. */
module ConstraintLaws {
  import opened Wrappers
  import opened Text
  import opened Constraints

  // ---------------------------------------------------------------------------
  // Live operands (boost::cref)
  // ---------------------------------------------------------------------------

  predicate HasOperand(c: Constraint) {
    c.Equal? || c.Compare? || c.Assign? || c.Contain?
  }

  function OperandOf(c: Constraint): Operand
    requires HasOperand(c)
  {
    match c
    case Equal(e) => e
    case Compare(_, b) => b
    case Assign(x) => x
    case Contain(n) => n
  }

  /** The same constraint built on another operand. */
  function WithOperand(c: Constraint, o: Operand): (c2: Constraint)
    requires HasOperand(c)
    ensures HasOperand(c2) && OperandOf(c2) == o
  {
    match c
    case Equal(_) => Equal(o)
    case Compare(rel, _) => Compare(rel, o)
    case Assign(_) => Assign(o)
    case Contain(_) => Contain(o)
  }

  /** A constraint on a live operand behaves, at every evaluation, exactly like one built
      on a copy of the referenced variable's value at that moment. */
  lemma LiveIsCurrentSnapshot(c: Constraint, s: Store, arg: Addr, invoke: FnId -> bool)
    requires Ready(c, s, arg) && HasOperand(c) && OperandOf(c).Live?
    ensures Ready(WithOperand(c, Snapshot(s[OperandOf(c).addr])), s, arg)
    ensures Eval(c, s, arg, invoke) == Eval(WithOperand(c, Snapshot(s[OperandOf(c).addr])), s, arg, invoke)
  {
  }

  // ---------------------------------------------------------------------------
  // equal
  // ---------------------------------------------------------------------------

  /** `equal` on character strings compares their text, whichever of `std::string`
      and `const char*` each side is, and changes nothing. */
  lemma EqualComparesText(e: Operand, s: Store, arg: Addr, invoke: FnId -> bool)
    requires Ready(Equal(e), s, arg) && IsText(Read(e, s)) && IsText(s[arg])
    ensures Eval(Equal(e), s, arg, invoke) == Verdict(Read(e, s).text == s[arg].text, s)
  {
  }

  /** `equal(std::string("string"))` accepts `"string"` and rejects `"not string"`. */
  lemma EqualStringScenario(s: Store, arg: Addr, invoke: FnId -> bool)
    requires WellTyped(s) && arg in s
    requires s[arg] == CStr("string") || s[arg] == CStr("not string")
    ensures Eval(Equal(Snapshot(Str("string"))), s, arg, invoke) == Verdict(s[arg] == CStr("string"), s)
  {
  }

  /** `equal(cref(s))` built while `s` is empty matches `"string"` once `s` holds "string";
      a copy taken at construction would not. */
  lemma EqualLiveScenario(s0: Store, x: Addr, arg: Addr, invoke: FnId -> bool)
    requires WellTyped(s0) && x in s0 && arg in s0 && x != arg
    requires s0[x] == Str("") && s0[arg] == CStr("string")
    ensures WellTyped(s0[x := Str("string")])
    ensures Eval(Equal(Live(x)), s0[x := Str("string")], arg, invoke) == Verdict(true, s0[x := Str("string")])
    ensures Eval(Equal(Snapshot(s0[x])), s0[x := Str("string")], arg, invoke) == Verdict(false, s0[x := Str("string")])
  {
  }

  // ---------------------------------------------------------------------------
  // less, greater, less_equal, greater_equal
  // ---------------------------------------------------------------------------

  /** On integers `less` and `greater_equal` disagree everywhere, and so do `greater` and `less_equal`. */
  lemma CompareComplements(b: Operand, s: Store, arg: Addr, invoke: FnId -> bool)
    requires WellTyped(s) && arg in s && Bound(b, s) && s[arg].Int? && Read(b, s).Int?
    ensures Eval(Compare(Less, b), s, arg, invoke) == Verdict(s[arg].i < Read(b, s).i, s)
    ensures Eval(Compare(GreaterEqual, b), s, arg, invoke) == Verdict(!(s[arg].i < Read(b, s).i), s)
    ensures Eval(Compare(Greater, b), s, arg, invoke) == Verdict(s[arg].i > Read(b, s).i, s)
    ensures Eval(Compare(LessEqual, b), s, arg, invoke) == Verdict(!(s[arg].i > Read(b, s).i), s)
  {
  }

  // ---------------------------------------------------------------------------
  // same
  // ---------------------------------------------------------------------------

  /** `same(x)` matches exactly the object `x` itself, whatever the values involved. */
  lemma SameIsIdentity(t: Addr, s: Store, arg: Addr, invoke: FnId -> bool)
    requires Ready(Same(t), s, arg)
    ensures Eval(Same(t), s, arg, invoke) == Verdict(arg == t, s)
  {
  }

  /** `same(i)` rejects a distinct `j` even though `i == j` by value, and accepts `i`. */
  lemma SameScenario(i: Addr, j: Addr, s: Store, invoke: FnId -> bool)
    requires WellTyped(s) && i in s && j in s && i != j && s[i] == s[j] == Int(0)
    ensures NativeEqual(s[i], s[j]) == Some(true)
    ensures Eval(Same(i), s, j, invoke) == Verdict(false, s)
    ensures Eval(Same(i), s, i, invoke) == Verdict(true, s)
  {
  }

  // ---------------------------------------------------------------------------
  // assign
  // ---------------------------------------------------------------------------

  /** `assign(x)` applied to a variable of the type of `x` stores `x` there and returns true. */
  lemma AssignWritesVariable(o: Operand, s: Store, arg: Addr, invoke: FnId -> bool)
    requires Ready(Assign(o), s, arg) && TypeOf(s[arg]) == TypeOf(Read(o, s))
    ensures Eval(Assign(o), s, arg, invoke) == Verdict(true, s[arg := Read(o, s)])
  {
  }

  /** `assign(x)` applied to a pointer to the type of `x` stores `x` in the variable it
      points at, returns true, and leaves every other variable as it was. */
  lemma AssignWritesThroughPointer(o: Operand, s: Store, arg: Addr, t: Addr, invoke: FnId -> bool)
    requires Ready(Assign(o), s, arg) && s[arg] == Ptr(TypeOf(Read(o, s)), To(t))
    ensures t in s && t != arg
    ensures Eval(Assign(o), s, arg, invoke) == Verdict(true, s[t := Read(o, s)])
    ensures forall a | a in s && a != t :: Eval(Assign(o), s, arg, invoke).after[a] == s[a]
  {  PointerTypeDiffers(TypeOf(Read(o, s)));
  }

  /** Through a null pointer `assign` writes nothing and still returns true. */
  lemma AssignThroughNullPointer(o: Operand, s: Store, arg: Addr, invoke: FnId -> bool)
    requires Ready(Assign(o), s, arg) && s[arg] == Ptr(TypeOf(Read(o, s)), Null)
    ensures Eval(Assign(o), s, arg, invoke) == Verdict(true, s)
  {
  }

  /** `assign(3)` sets `i` to 3 whether applied to `i` or to `&i`. */
  lemma AssignConstantScenario(i: Addr, p: Addr, s: Store, invoke: FnId -> bool)
    requires WellTyped(s) && i in s && p in s && i != p
    requires s[i] == Int(0) && s[p] == Ptr(IntType, To(i))
    ensures Eval(Assign(Snapshot(Int(3))), s, i, invoke) == Verdict(true, s[i := Int(3)])
    ensures Eval(Assign(Snapshot(Int(3))), s, p, invoke) == Verdict(true, s[i := Int(3)])
  {
  }

  /** `assign(&j)` applied to a null `const int* i` makes `i` point at `j`. */
  lemma AssignAddressScenario(i: Addr, j: Addr, s: Store, invoke: FnId -> bool)
    requires WellTyped(s) && i in s && j in s && i != j
    requires s[i] == Ptr(IntType, Null) && s[j] == Int(1)
    ensures Eval(Assign(Snapshot(Ptr(IntType, To(j)))), s, i, invoke) ==
            Verdict(true, s[i := Ptr(IntType, To(j))])
  {
  }

  /** `assign(cref(j))` built while `j == 0` writes 3 once `j` is 3, both into `i` and through `&i`. */
  lemma AssignLiveScenario(s0: Store, i: Addr, j: Addr, p: Addr, invoke: FnId -> bool)
    requires WellTyped(s0) && i in s0 && j in s0 && p in s0 && i != j && j != p && i != p
    requires s0[i] == Int(0) && s0[j] == Int(0) && s0[p] == Ptr(IntType, To(i))
    ensures WellTyped(s0[j := Int(3)])
    ensures Eval(Assign(Live(j)), s0[j := Int(3)], i, invoke) == Verdict(true, s0[j := Int(3)][i := Int(3)])
    ensures Eval(Assign(Live(j)), s0[j := Int(3)], p, invoke) == Verdict(true, s0[j := Int(3)][i := Int(3)])
  {
  }

  // ---------------------------------------------------------------------------
  // retrieve
  // ---------------------------------------------------------------------------

  /** `retrieve(d)` with `d` of the argument's type copies the argument into `d`. */
  lemma RetrieveCopiesValue(d: Addr, s: Store, arg: Addr, invoke: FnId -> bool)
    requires Ready(Retrieve(d), s, arg) && TypeOf(s[d]) == TypeOf(s[arg])
    ensures Eval(Retrieve(d), s, arg, invoke) == Verdict(true, s[d := s[arg]])
  {
  }

  /** `retrieve(d)` with `d` a pointer to the argument's type stores the argument's
      address into `d`, so that `*d` is then the argument itself. */
  lemma RetrieveStoresAddress(d: Addr, s: Store, arg: Addr, invoke: FnId -> bool)
    requires Ready(Retrieve(d), s, arg) && TypeOf(s[d]) == PointerType(TypeOf(s[arg]))
    ensures d != arg
    ensures Eval(Retrieve(d), s, arg, invoke) == Verdict(true, s[d := Ptr(TypeOf(s[arg]), To(arg))])
    ensures Eval(Retrieve(d), s, arg, invoke).after[d].target == To(arg)
    ensures Eval(Retrieve(d), s, arg, invoke).after[arg] == s[arg]
  {  PointerTypeDiffers(TypeOf(s[arg]));
  }

  /** The test cases of `retrieve`: an `int` copies an `int`; an `int*` copies the
      temporary `&j` held at `t`; an `int*` takes the address of an `int`; an `int**`
      takes the address of an `int*`. */
  lemma RetrieveScenarios(i: Addr, j: Addr, t: Addr, s: Store, invoke: FnId -> bool)
    requires WellTyped(s) && i in s && j in s && t in s && i != j && t != i && t != j
    ensures s[i] == Int(0) && s[j] == Int(1) ==>
              Eval(Retrieve(i), s, j, invoke) == Verdict(true, s[i := Int(1)])
    ensures s[i] == Ptr(IntType, Null) && s[j] == Int(1) && s[t] == Ptr(IntType, To(j)) ==>
              Eval(Retrieve(i), s, t, invoke) == Verdict(true, s[i := Ptr(IntType, To(j))])
    ensures s[i] == Ptr(IntType, Null) && s[j] == Int(1) ==>
              Eval(Retrieve(i), s, j, invoke) == Verdict(true, s[i := Ptr(IntType, To(j))])
    ensures s[i] == Ptr(PointerType(IntType), Null) && s[j] == Ptr(IntType, Null) ==>
              Eval(Retrieve(i), s, j, invoke) == Verdict(true, s[i := Ptr(PointerType(IntType), To(j))])
  {
  }

  // ---------------------------------------------------------------------------
  // negate, call, evaluate
  // ---------------------------------------------------------------------------

  /** `negate` holds exactly for a null pointer. */
  lemma NegateIffNull(s: Store, arg: Addr, invoke: FnId -> bool)
    requires Ready(Negate, s, arg) && s[arg].Ptr?
    ensures Eval(Negate, s, arg, invoke) == Verdict(s[arg].target == Null, s)
  {
  }

  /** `call(f)` returns what `f` returns, whatever it is applied to. */
  lemma CallReturnsResult(f: FnId, s: Store, arg: Addr, invoke: FnId -> bool)
    requires Ready(Call(f), s, arg)
    ensures Eval(Call(f), s, arg, invoke) == Verdict(invoke(f), s)
  {
  }

  /** `evaluate` applied to `f` returns what `f` returns: the same as `call(f)`. */
  lemma EvaluateAgreesWithCall(f: FnId, s: Store, arg: Addr, other: Addr, invoke: FnId -> bool)
    requires Ready(Evaluate, s, arg) && s[arg] == Fn(f) && other in s
    ensures Eval(Evaluate, s, arg, invoke) == Verdict(invoke(f), s)
    ensures Eval(Evaluate, s, arg, invoke) == Eval(Call(f), s, other, invoke)
  {
  }

  // ---------------------------------------------------------------------------
  // contain
  // ---------------------------------------------------------------------------

  /** `contain` holds exactly when the needle's text occurs contiguously in the argument's. */
  lemma ContainIffOccurrence(n: Operand, s: Store, arg: Addr, invoke: FnId -> bool)
    requires Ready(Contain(n), s, arg) && IsText(Read(n, s)) && IsText(s[arg])
    ensures Eval(Contain(n), s, arg, invoke).Verdict?
    ensures Eval(Contain(n), s, arg, invoke).after == s
    ensures Eval(Contain(n), s, arg, invoke).matched <==>
              exists i :: StartsAt(Read(n, s).text, s[arg].text, i)
  {
    OccursIff(Read(n, s).text, s[arg].text);
  }

  /** `contain` gives the same answer whether needle and argument are `std::string`
      or `const char*`, on either side. */
  lemma ContainIgnoresTextKind(t: string, s: Store, a: Addr, b: Addr, invoke: FnId -> bool)
    requires WellTyped(s) && a in s && b in s && IsText(s[a]) && IsText(s[b]) && s[a].text == s[b].text
    ensures Eval(Contain(Snapshot(Str(t))), s, a, invoke) == Eval(Contain(Snapshot(CStr(t))), s, b, invoke)
  {
  }

  /** The same text held as the other kind of character string. */
  function Retext(v: Value, t: string): (w: Value)
    requires IsText(v)
    ensures IsText(w) && TypeOf(w) == TypeOf(v) && w.text == t
  {
    if v.Str? then Str(t) else CStr(t)
  }

  /** "string" occurs in "this is a string". */
  lemma FoundInSentence(n: string, hay: string)
    requires n == "string" && hay == "this is a string"
    ensures Occurs(n, hay)
  {
    OccursIff(n, hay);
    assert StartsAt(n, hay, 10);
  }

  /** "not found" does not occur in "this is a string": no 'f' to line up with its fifth character. */
  lemma NotFoundInSentence(n: string, hay: string)
    requires n == "not found" && hay == "this is a string"
    ensures !Occurs(n, hay)
  {
    OccursIff(n, hay);
    assert 'f' !in hay;
    forall i | 0 <= i && i + |n| <= |hay|
      ensures !StartsAt(n, hay, i)
    {
      assert hay[i..i + |n|][4] != n[4];
    }
  }

  /** `contain(cref(s))` on "this is a string" holds while `s` is "string" and
      stops holding once `s` becomes "not found". */
  lemma ContainLiveScenario(s0: Store, x: Addr, arg: Addr, invoke: FnId -> bool)
    requires WellTyped(s0) && x in s0 && arg in s0 && x != arg
    requires IsText(s0[x]) && IsText(s0[arg]) && s0[arg].text == "this is a string"
    ensures WellTyped(s0[x := Retext(s0[x], "string")])
    ensures WellTyped(s0[x := Retext(s0[x], "not found")])
    ensures Eval(Contain(Live(x)), s0[x := Retext(s0[x], "string")], arg, invoke) ==
            Verdict(true, s0[x := Retext(s0[x], "string")])
    ensures Eval(Contain(Live(x)), s0[x := Retext(s0[x], "not found")], arg, invoke) ==
            Verdict(false, s0[x := Retext(s0[x], "not found")])
  {
    WriteKeepsShape(s0, x, Retext(s0[x], "string"));
    WriteKeepsShape(s0, x, Retext(s0[x], "not found"));
    FoundInSentence(Retext(s0[x], "string").text, s0[arg].text);
    NotFoundInSentence(Retext(s0[x], "not found").text, s0[arg].text);
  }

  // ---------------------------------------------------------------------------
  // The same scenarios, stated as methods on caller storage updated in place
  // ---------------------------------------------------------------------------

  /** `assign(cref(j))` is built, the caller sets `j = 3`, and applying the constraint
      to `i` and then to `&k` writes 3 into `i` and into `k`. */
  method AssignLiveInPlace() returns (direct: Option<bool>, viaPointer: Option<bool>, i: Value, k: Value)
    ensures direct == Some(true) && viaPointer == Some(true)
    ensures i == Int(3) && k == Int(3)
  {
    var ai, aj, ak, pk := 0, 1, 2, 3;
    var m := new Memory(map[ai := Int(0), aj := Int(0), ak := Int(0), pk := Ptr(IntType, To(ak))]);
    var c := Assign(Live(aj));
    m.Set(aj, Int(3));
    direct := m.Match(c, ai, _ => false);
    viaPointer := m.Match(c, pk, _ => false);
    i, k := m.cells[ai], m.cells[ak];
  }

  /** `retrieve(i)` with `int** i` applied to `int* j` leaves `i` pointing at `j`. */
  method RetrieveInPlace() returns (r: Option<bool>, i: Value)
    ensures r == Some(true)
    ensures i == Ptr(PointerType(IntType), To(1))
  {
    var ai, aj := 0, 1;
    var m := new Memory(map[ai := Ptr(PointerType(IntType), Null), aj := Ptr(IntType, Null)]);
    r := m.Match(Retrieve(ai), aj, _ => false);
    i := m.cells[ai];
  }
}
