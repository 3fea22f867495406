# Turtle argument matchers and diagnostic rendering, in Dafny

This project models two pieces of the Turtle C++ mock-object library.

- **The argument matchers.** Each constraint (`equal`, `less`, `greater`, `less_equal`, `greater_equal`, `same`, `negate`, `assign`, `retrieve`, `call`, `evaluate`, `contain`) is applied through `f_` and returns a bool. Every constraint except `call` inspects the one observed argument. `call(f).f_()` takes no argument: the model still supplies one, and `call` ignores it. `assign` and `retrieve` also write into variables that belong to the caller.
- **The rendering of values for failure messages.** This covers `mock::stream`, the fallback `operator<<` that writes `?`, the `detail::serialize` overloads, and the `conversion` holder.

The header that implements the constraints is not part of this model. Their behaviour is taken from the tests in `src/tests/turtle_test/constraints_test.cpp`, and the model is stated for all inputs. The test cases of `equal`, `same`, `assign`, `retrieve` and `contain` are proved as instances of it. The `assign` and `retrieve` cases are also stated as verified methods on caller storage.

## Files

- `wrappers.dfy`: the `Option` datatype.
- `text.dfy`, module `Text`:
  - `Occurs`, the substring search used by `contain`, and its reference definition `StartsAt`, proved equivalent by `OccursIff`.
  - Decimal digits (`Digits`, `Decimal`) and their inverse `ParseDigits`.
- `constraints.dfy`, module `Constraints`:
  - Caller variables form a store `map<Addr, Value>`. Every argument is an object at an address; a temporary such as `&i` or `"text"` gets an address of its own.
  - An operand is either a `Snapshot` (a copy) or `Live` (`boost::cref`, read when the constraint is applied).
  - `Eval` is the specification of applying a constraint. It returns `Verdict(matched, after)`. It returns `Rejected` for combinations of types that the model does not accept. These include most combinations C++ would refuse to compile, and some that C++ accepts through a conversion. The exceptions either way are listed under "Left out".
  - The class `Memory` holds the caller's variables. Its method `Match` applies a constraint and updates those variables in place; `AssignTo` and `RetrieveInto` do the writes.
  - `WellTyped` is the store invariant: every non-null pointer designates a live variable of its pointee type. `Eval` keeps it, and never adds or removes a variable or changes its type.
- `constraint_laws.dfy`, module `ConstraintLaws`: the properties and test scenarios of each constraint. `AssignLiveInPlace` and `RetrieveInPlace` state the `assign(cref(j))` and `int**` retrieve test scenarios as verified methods on `Memory`.
- `serialization.dfy`, module `Serialization`:
  - `Printable` tags a value with the C++ type that overload resolution looks at.
  - `Serialized` is the dispatch of `detail::serialize`. Special overloads come first, and the generic `s << t` comes last.
  - The classes `OStream`, `Stream` (`mock::stream`), `Variable` and `Holder` (`holder_imp`) append to one text buffer.
- `serialization_laws.dfy`, module `SerializationLaws`: the rendering properties. `HolderRendersCurrentValue` and `SerializeSequence` state two usage scenarios of the classes as verified methods.

Calls into code that is not visible here become parameters:
- `invoke: FnId -> bool` gives what each `bool()` function returns.
- `userText: UserValue -> string` gives what a user type's own `operator<<` writes.

## Where the code decides

- `stream.hpp:136-139` converts every `unsigned char` to `int`, printable or not. The model therefore renders all 256 values as decimal digits, so `'A'` is written as `65` (`UnsignedCharDecimal`, `UnsignedCharNotRaw`). It does not restrict the numeric form to non-printable values.
- In `stream.hpp` the `bool`, string and `unsigned char` overloads are more specialised than the generic template, so they win over a type's own `operator<<`. The model dispatches the special cases first and the type's own operator last (`SpecialCasesOverrideOperator`).

## Model

| member | source | states |
|---|---|---|
| Constraints.Eval | src/tests/turtle_test/constraints_test.cpp:47-263 | Applying any constraint keeps the caller's store well typed, with the same variables of the same types. Pure constraints leave the store unchanged. `assign` and `retrieve` always return true. |
| Constraints.NativeEqual | src/tests/turtle_test/constraints_test.cpp:47-60 | `==` exists exactly between two texts (compared by their characters) or two values of one type, where it is value identity. Otherwise it is `None`, a combination that does not compile. |
| Constraints.Read | src/tests/turtle_test/constraints_test.cpp:51-60 | A live operand yields the referenced variable's value at evaluation time. Operand values are valid pointers in a well-typed store. |
| Constraints.AssignEffect | src/tests/turtle_test/constraints_test.cpp:72-113 | `assign` applies exactly when the argument has the source's type or points to it. The store afterwards keeps its shape and stays well typed. |
| Constraints.RetrieveEffect | src/tests/turtle_test/constraints_test.cpp:116-166 | `retrieve` applies exactly when the destination has the argument's type or is a pointer to it. The store afterwards keeps its shape and stays well typed. |
| Constraints.Memory.Match | src/tests/turtle_test/constraints_test.cpp:47-263 | `f_` applied in place returns `Eval`'s bool and leaves the caller's variables as `Eval` says. On a rejected combination it changes nothing. |
| Constraints.Memory.AssignTo | src/tests/turtle_test/constraints_test.cpp:72-113 | The in-place write of `assign` (into the argument, or through it) agrees with `AssignEffect` and returns true. |
| Constraints.Memory.RetrieveInto | src/tests/turtle_test/constraints_test.cpp:116-166 | The in-place write of `retrieve` (the argument's value or its address) agrees with `RetrieveEffect` and returns true. |
| Constraints.Memory.Set | src/tests/turtle_test/constraints_test.cpp:97-98 | The caller writing one of its own variables between building and applying a constraint changes exactly that variable. |
| ConstraintLaws.LiveIsCurrentSnapshot | src/tests/turtle_test/constraints_test.cpp:51-60 | A constraint on `cref(x)` behaves, at each evaluation, as one built on a copy of `x`'s current value. |
| ConstraintLaws.EqualComparesText | src/tests/turtle_test/constraints_test.cpp:47-50 | `equal` on `std::string` or `const char*` returns whether the texts are equal, and changes nothing. |
| ConstraintLaws.EqualStringScenario | src/tests/turtle_test/constraints_test.cpp:49-50 | `equal(std::string("string"))` accepts `"string"` and rejects `"not string"`. |
| ConstraintLaws.EqualLiveScenario | src/tests/turtle_test/constraints_test.cpp:51-60 | `equal(cref(s))` built while `s` is empty matches `"string"` after `s = "string"`. A copy taken at construction would not match. |
| ConstraintLaws.CompareComplements | src/tests/turtle_test/constraints_test.cpp:16-23 | On integers, `less`/`greater_equal` and `greater`/`less_equal` compare the argument with the bound and are complementary. |
| ConstraintLaws.SameIsIdentity | src/tests/turtle_test/constraints_test.cpp:63-70 | `same(x)` matches exactly when the argument is the object `x`. |
| ConstraintLaws.SameScenario | src/tests/turtle_test/constraints_test.cpp:63-70 | `same(i)` rejects a distinct `j` with `i == j` by value, and accepts `i`. |
| ConstraintLaws.AssignWritesVariable | src/tests/turtle_test/constraints_test.cpp:74-78 | `assign(x)` on a variable of `x`'s type stores `x` there and returns true. |
| ConstraintLaws.AssignWritesThroughPointer | src/tests/turtle_test/constraints_test.cpp:79-83 | `assign(x)` on a pointer to `x`'s type stores `x` in the variable pointed at, returns true, and changes nothing else. |
| ConstraintLaws.AssignThroughNullPointer | src/tests/turtle_test/constraints_test.cpp:79-83 | Through a null pointer, `assign` writes nothing and returns true. |
| ConstraintLaws.AssignConstantScenario | src/tests/turtle_test/constraints_test.cpp:74-83 | `assign(3)` sets `i` to 3 whether it is applied to `i` or to `&i`. |
| ConstraintLaws.AssignAddressScenario | src/tests/turtle_test/constraints_test.cpp:84-89 | `assign(&j)` on a null `const int* i` makes `i` point at `j`. |
| ConstraintLaws.AssignLiveScenario | src/tests/turtle_test/constraints_test.cpp:90-113 | `assign(cref(j))` with `j` set to 3 after construction writes 3 into `i`, both directly and through `&i`. |
| ConstraintLaws.AssignLiveInPlace | src/tests/turtle_test/constraints_test.cpp:90-113 | Applied in place after `j = 3`, `assign(cref(j))` returns true for `i` and for a pointer to `k`, and leaves 3 in both `i` and `k`. |
| ConstraintLaws.RetrieveCopiesValue | src/tests/turtle_test/constraints_test.cpp:118-129 | `retrieve(d)` with `d` of the argument's type copies the argument into `d`. |
| ConstraintLaws.RetrieveStoresAddress | src/tests/turtle_test/constraints_test.cpp:130-165 | `retrieve(d)` with `d` a pointer to the argument's type stores the argument's address, so `*d` is the argument. |
| ConstraintLaws.RetrieveScenarios | src/tests/turtle_test/constraints_test.cpp:116-166 | The test cases: `int` ← `j`, `int*` ← the temporary `&j`, `int*` ← `j`, and `int**` ← `j` with `int* j`. |
| ConstraintLaws.RetrieveInPlace | src/tests/turtle_test/constraints_test.cpp:154-159 | Applied in place, `retrieve(i)` with `int** i` to `int* j` returns true and leaves `i` pointing at `j`. |
| ConstraintLaws.NegateIffNull | src/tests/turtle_test/constraints_test.cpp:189-195 | `negate` is true exactly for a null pointer. |
| ConstraintLaws.CallReturnsResult | src/tests/turtle_test/constraints_test.cpp:209-213 | `call(f)` returns exactly `f()`, whatever argument it is given. |
| ConstraintLaws.EvaluateAgreesWithCall | src/tests/turtle_test/constraints_test.cpp:215-219 | `evaluate` applied to `f` returns exactly `f()`, the same as `call(f)`. |
| ConstraintLaws.ContainIffOccurrence | src/tests/turtle_test/constraints_test.cpp:221-226 | `contain` is true exactly when the needle's text occurs contiguously at some position of the argument's text. |
| ConstraintLaws.ContainIgnoresTextKind | src/tests/turtle_test/constraints_test.cpp:243-248 | `contain` gives the same result whether needle and argument are `std::string` or `const char*`. |
| ConstraintLaws.FoundInSentence | src/tests/turtle_test/constraints_test.cpp:223-224 | "string" occurs in "this is a string". |
| ConstraintLaws.NotFoundInSentence | src/tests/turtle_test/constraints_test.cpp:225-226 | "not found" does not occur in "this is a string". |
| ConstraintLaws.ContainLiveScenario | src/tests/turtle_test/constraints_test.cpp:227-240 | With a live needle, the result flips from true to false when the bound text changes from "string" to "not found". |
| Text.OccursIff | src/tests/turtle_test/constraints_test.cpp:221-263 | The substring search succeeds exactly when some position starts a copy of the needle. |
| Text.Digits | turtle/stream.hpp:136-139 | Decimal digits: at least one, all digits, one digit exactly below 10, no leading zero. |
| Text.ParseDigitsOfDigits | turtle/stream.hpp:136-139 | Writing a number in decimal and reading it back gives the number. |
| Text.DigitsOfByte | turtle/stream.hpp:136-139 | A number below 256 takes at most three digits. |
| Text.Decimal | turtle/stream.hpp:138 | Signed decimal text is never empty and starts with '-' exactly for a negative number. |
| Serialization.Written | turtle/stream.hpp:95-109 | `os << x` writes the type's own rendering when it has an operator, and the single character `?` otherwise. |
| Serialization.Serialized | turtle/stream.hpp:113-140 | Every built-in value renders as non-empty text. A string renders as its characters between double quotes, and a bool as the word "true" or "false". |
| Serialization.OStream.Insert | turtle/stream.hpp:95-99 | `os << x` appends the type's own rendering, or `?` when it has none, and returns the same ostream. |
| Serialization.Stream.constructor | turtle/stream.hpp:19-25 | A `mock::stream` wraps the one ostream it is given. |
| Serialization.Stream.Put | turtle/stream.hpp:103-109 | `s << t` appends `t`'s rendering to the wrapped ostream and returns the same stream. |
| Serialization.Stream.PutHeld | turtle/stream.hpp:83-87 | `s << any(t)` appends the held value's rendering to the wrapped ostream and returns the same stream. |
| Serialization.Holder.constructor | turtle/stream.hpp:55-57 | A holder keeps the address of the value, not a copy. |
| Serialization.Holder.Serialize | turtle/stream.hpp:58-64 | The holder appends the rendering of the value it points at, as that value is when it is written. |
| Serialization.PutQuoted | turtle/stream.hpp:127-135 | `s << '"' << str << '"'` appends a quote, the text and a quote to the one ostream, each write going to the stream the previous one returned. |
| Serialization.Serialize | turtle/stream.hpp:113-140 | `detail::serialize` appends exactly `Serialized(x)` to the wrapped ostream, dispatching on the value's tag. |
| SerializationLaws.BoolAsWord | turtle/stream.hpp:123-126 | A bool renders as exactly "true" or "false", never as the digit its own operator writes. |
| SerializationLaws.StringQuoted | turtle/stream.hpp:127-131 | A `std::basic_string` renders as `"`, its characters, then `"`. Stripping the quotes gives it back. |
| SerializationLaws.CharPtrQuoted | turtle/stream.hpp:132-135 | A `const char*` renders as its characters in double quotes, the same as a `std::string`. |
| SerializationLaws.UnsignedCharDecimal | turtle/stream.hpp:136-139 | Every `unsigned char` renders as one to three decimal digits that read back as its value. |
| SerializationLaws.UnsignedCharNotRaw | turtle/stream.hpp:136-139 | No `unsigned char` renders as the raw character its own operator writes. |
| SerializationLaws.FallbackPlaceholder | turtle/stream.hpp:95-99 | A type without an operator renders as the single character `?`, through both `serialize` and `s << x`. |
| SerializationLaws.GenericUsesOwnOperator | turtle/stream.hpp:115-122 | Every other type renders exactly as its own operator writes it. |
| SerializationLaws.HolderRendersCurrentValue | turtle/stream.hpp:55-65 | A holder built on a variable holding 1, written after the variable becomes 7 and followed by a space, renders "7 ". |
| SerializationLaws.SerializeSequence | turtle/stream.hpp:113-140 | `serialize` of `true`, of "abc" and of an unprintable value, chained on one stream, renders `true"abc"?`. |
| SerializationLaws.SpecialCasesOverrideOperator | turtle/stream.hpp:113-140 | For bool, strings and `unsigned char`, the rendering differs from what the type's own operator writes. |

## Left out

- The `!`, `&&` and `||` combinators and the `mock::any` constraint: the tests only check that they compile (`constraints_test.cpp:25-45`) and assert no result.
- `retrieve` through a user `operator=` (`constraints_test.cpp:182-187`): the test asserts nothing beyond running.
- `src/libraries/turtle/config.hpp`: it holds only build-time constants for the maximum argument count, with no runtime behaviour.
- Constraints.AssignEffect: the header is not part of this model, and no test covers `assign` through a null pointer. The model dereferences a pointer argument only when it is non-null, so there it writes nothing and returns true.
- Constraints.Eval: `negate` is defined on pointers only, and `less`, `greater`, `less_equal` and `greater_equal` on integers only. Other argument types are `Rejected`, because no test applies these constraints to them.
- Constraints.Eval: `equal` between two `const char*` compares their text. C++ would compare the two pointers. A `CStr` value holds the characters, not a pointer to them, so two `const char*` values cannot be compared as pointers. The variable or temporary that holds a `CStr` still has an address of its own.
- Constraints.Eval: `same` compares the addresses of the argument and the target for any pair of types. C++ refuses to compile the comparison when the two types are unrelated; the model returns false there instead of `Rejected`.
- Constraints.AssignEffect: `assign` writes only a value of the destination's exact type, directly or through a pointer. Every assignment between different types is `Rejected`, although C++ accepts those that go through a conversion or an `operator=`. Examples are `std::string` ← `const char*`, `long` ← `int` and `const int*` ← `int*`.
- Constraints.RetrieveEffect: `retrieve` stores the argument only into a destination of the argument's exact type, or its address into a pointer to that type. Every assignment between different types is `Rejected`, `std::string` ← `const char*` included, although C++ accepts it through `std::string::operator=` (the path `constraints_test.cpp:182-187` exercises with a user type).
- Constraints.Eval: `const` is not part of the model's types, so it accepts writes into `const` variables that C++ refuses to compile.
- Compile-time overload resolution, the ambiguous-conversion trick, the `MOCK_USE_CONVERSIONS` switch and the `sink` converting constructor: both configurations are modelled (`Stream.Put` and `Stream.PutHeld`). The static choice between them is not; dispatch is on an explicit tag.
- `new`/`delete` of the holder inside `conversion::any`, `boost::noncopyable` and `boost::addressof`: these are memory management and library plumbing.
- Stream formatting flags (`boolalpha`, `hex`, widths): the native rendering assumes default flags, so a bool is written as a digit and an integer in decimal.
- Wide-character strings and null `const char*` values: the model's text is a sequence of `char` and is never null.
- The results of callables and of user `operator<<` are foreign code. They are the parameters `invoke` and `userText`.
