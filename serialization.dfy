/** Rendering of values for failure messages: `mock::stream`, the fallback `operator<<`
    that writes '?', the `detail::serialize` overloads and the `conversion` holder.

    C++ overload resolution picks the rendering from the value's static type; here each
    value carries that type as its tag and the choice is an explicit dispatch on it. */
module Serialization {
  import opened Text

  type Byte = x: int | 0 <= x < 256

  /** Identifies a value of a user type that has its own `operator<<`; what that operator
      writes is given by the caller's `userText`. */
  type UserValue = nat

  /** A value to render, tagged by the type overload resolution looks at. */
  datatype Printable =
    | Boolean(b: bool)
    | StdString(s: string)        // std::basic_string
    | CharPtr(s: string)          // const char*
    | UnsignedChar(byte: Byte)
    | Integer(i: int)
    | Character(c: char)
    | UserType(id: UserValue)     // a type with its own operator<<
    | Unprintable                 // a type with no operator<< at all

  /** The type has an `operator<<` for `std::ostream` of its own. */
  predicate HasOperator(x: Printable) {
    !x.Unprintable?
  }

  /** What the type's own `operator<<` writes to a `std::ostream` with default flags:
      a bool as a digit, text as it is, a character (signed or not) as that character,
      an integer in decimal. */
  function NativeText(x: Printable, userText: UserValue -> string): string
    requires HasOperator(x)
  {
    match x
    case Boolean(b) => if b then "1" else "0"
    case StdString(s) => s
    case CharPtr(s) => s
    case UnsignedChar(c) => [c as char]
    case Integer(i) => Decimal(i)
    case Character(c) => [c]
    case UserType(id) => userText(id)
  }

  /** What the fallback operator writes for a type without one of its own. */
  const Placeholder: string := "?"

  /** What `os << x` writes with the fallback operator in scope. */
  function Written(x: Printable, userText: UserValue -> string): (r: string)
    ensures HasOperator(x) ==> r == NativeText(x, userText)
    ensures !HasOperator(x) ==> |r| == 1 && r[0] == '?'
  {
    if HasOperator(x) then NativeText(x, userText) else Placeholder
  }

  /** What `detail::serialize(s, x)` writes: the overloads for bool, strings and unsigned
      char take precedence; every other type goes through `s << x`. */
  function Serialized(x: Printable, userText: UserValue -> string): (r: string)
    ensures !x.UserType? ==> |r| >= 1
    ensures x.StdString? || x.CharPtr? ==> r == ['"'] + x.s + ['"']
    ensures x.Boolean? ==> r == if x.b then "true" else "false"
  {
    match x
    case Boolean(b) =>
      Written(CharPtr(if b then "true" else "false"), userText)
    case StdString(s) =>
      Written(Character('"'), userText) + Written(x, userText) + Written(Character('"'), userText)
    case CharPtr(s) =>
      Written(Character('"'), userText) + Written(x, userText) + Written(Character('"'), userText)
    case UnsignedChar(c) =>
      Written(Integer(c), userText)
    case _ =>
      Written(x, userText)
  }

  /** A `std::ostream`: the text written to it so far. */
  class OStream {
    var text: string

    constructor ()
      ensures text == []
    {
      text := [];
    }

    /** `os << x` with the fallback operator of `detail::conversion` in scope: the
        type's own operator when it has one, else the placeholder. Returns the stream. */
    method Insert(x: Printable, userText: UserValue -> string) returns (r: OStream)
      modifies this
      ensures r == this
      ensures text == old(text) + Written(x, userText)
    {
      if HasOperator(x) {
        text := text + NativeText(x, userText);
      } else {
        text := text + Placeholder;
      }
      r := this;
    }
  }

  /** A caller's object, which a holder points at. */
  class Variable {
    var value: Printable

    constructor (v: Printable)
      ensures value == v
    {
      value := v;
    }
  }

  /** `conversion::holder_imp`, owned by `conversion::any`: keeps the address of the
      value, not a copy, so it renders whatever the value holds when it is rendered. */
  class Holder {
    const target: Variable

    constructor (t: Variable)
      ensures target == t
    {
      target := t;
    }

    /** `holder_imp::serialize`: writes the pointed-to value to the ostream. */
    method Serialize(os: OStream, userText: UserValue -> string)
      modifies os
      ensures os.text == old(os.text) + Written(target.value, userText)
    {
      var _ := os.Insert(target.value, userText);
    }
  }

  /** `mock::stream`: wraps exactly one `std::ostream`. */
  class Stream {
    const os: OStream

    constructor (os: OStream)
      ensures this.os == os
    {
      this.os := os;
    }

    /** `s << t`: writes `t` to the wrapped ostream and returns the same stream. */
    method Put(x: Printable, userText: UserValue -> string) returns (r: Stream)
      modifies os
      ensures r == this
      ensures os.text == old(os.text) + Written(x, userText)
    {
      var _ := os.Insert(x, userText);
      r := this;
    }

    /** `s << any(t)` under `MOCK_USE_CONVERSIONS`: the holder writes the value it points at
        to the wrapped ostream; returns the same stream. */
    method PutHeld(h: Holder, userText: UserValue -> string) returns (r: Stream)
      modifies os
      ensures r == this
      ensures os.text == old(os.text) + Written(h.target.value, userText)
    {
      h.Serialize(os, userText);
      r := this;
    }
  }

  /** `s << '"' << x << '"'`: three writes chained on the stream `s` returns. */
  method PutQuoted(s: Stream, x: Printable, userText: UserValue -> string)
    modifies s.os
    ensures s.os.text == old(s.os.text) + ['"'] + Written(x, userText) + ['"']
  {
    var r := s.Put(Character('"'), userText);
    r := r.Put(x, userText);
    r := r.Put(Character('"'), userText);
  }

  /** `detail::serialize(s, x)`: appends `Serialized(x)` to the ostream `s` wraps. */
  method Serialize(s: Stream, x: Printable, userText: UserValue -> string)
    modifies s.os
    ensures s.os.text == old(s.os.text) + Serialized(x, userText)
  {
    if x.Boolean? {
      var _ := s.Put(CharPtr(if x.b then "true" else "false"), userText);
    } else if x.StdString? || x.CharPtr? {
      PutQuoted(s, x, userText);
    } else if x.UnsignedChar? {
      var _ := s.Put(Integer(x.byte), userText);
    } else {
      var _ := s.Put(x, userText);
    }
  }
}
