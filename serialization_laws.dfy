/** What the rendering promises: the words for bool, quotes around text, decimal digits
    for unsigned char, the placeholder for types without an operator, and the generic
    path for everything else. */
module SerializationLaws {
  import opened Wrappers
  import opened Text
  import opened Serialization

  /** Strips the surrounding double quotes, if both are there. */
  function Unquote(t: string): Option<string> {
    if 2 <= |t| && t[0] == '"' && t[|t| - 1] == '"' then Some(t[1..|t| - 1]) else None
  }

  /** A bool is written as the word "true" or "false", never as the digit its own
      operator writes. */
  lemma BoolAsWord(b: bool, userText: UserValue -> string)
    ensures Serialized(Boolean(b), userText) == if b then "true" else "false"
    ensures Serialized(Boolean(b), userText) != NativeText(Boolean(b), userText)
  {
  }

  /** A `std::basic_string` is written between double quotes, and stripping them gives it back. */
  lemma StringQuoted(s: string, userText: UserValue -> string)
    ensures Serialized(StdString(s), userText) == ['"'] + s + ['"']
    ensures Unquote(Serialized(StdString(s), userText)) == Some(s)
  {
  }

  /** A `const char*` is written exactly as a `std::string` with the same characters. */
  lemma CharPtrQuoted(s: string, userText: UserValue -> string)
    ensures Serialized(CharPtr(s), userText) == Serialized(StdString(s), userText)
    ensures Unquote(Serialized(CharPtr(s), userText)) == Some(s)
  {
  }

  /** An `unsigned char` is written, for every value, as the one to three decimal digits
      of its number, which read back as that number. */
  lemma UnsignedCharDecimal(c: Byte, userText: UserValue -> string)
    ensures 1 <= |Serialized(UnsignedChar(c), userText)| <= 3
    ensures forall k :: 0 <= k < |Serialized(UnsignedChar(c), userText)| ==>
              IsDigit(Serialized(UnsignedChar(c), userText)[k])
    ensures ParseDigits(Serialized(UnsignedChar(c), userText)) == c
  {
    assert Serialized(UnsignedChar(c), userText) == Digits(c);
    DigitsOfByte(c);
    ParseDigitsOfDigits(c);
  }

  /** An `unsigned char` is never written as the raw character its own operator writes. */
  lemma UnsignedCharNotRaw(c: Byte, userText: UserValue -> string)
    ensures Serialized(UnsignedChar(c), userText) != NativeText(UnsignedChar(c), userText)
  {
  }

  /** A type with no operator of its own is written as the single placeholder '?', both
      by `detail::serialize` and by a plain `s << x`. */
  lemma FallbackPlaceholder(userText: UserValue -> string)
    ensures Serialized(Unprintable, userText) == "?"
    ensures Written(Unprintable, userText) == "?"
  {
  }

  /** Every type without a special overload is written by its own operator, unchanged. */
  lemma GenericUsesOwnOperator(x: Printable, userText: UserValue -> string)
    requires x.Integer? || x.Character? || x.UserType?
    ensures Serialized(x, userText) == NativeText(x, userText)
  {
  }

  /** The special overloads take precedence: for bool, strings and unsigned char the text
      differs from what the type's own operator would write. */
  lemma SpecialCasesOverrideOperator(x: Printable, userText: UserValue -> string)
    requires x.Boolean? || x.StdString? || x.CharPtr? || x.UnsignedChar?
    ensures Serialized(x, userText) != NativeText(x, userText)
  {
  }

  /** A holder built on a variable renders what the variable holds when the holder is
      written, not what it held when the holder was built; writes chain on one ostream. */
  method HolderRendersCurrentValue(userText: UserValue -> string) returns (rendered: string)
    ensures rendered == "7 "
  {
    var os := new OStream();
    var s := new Stream(os);
    var v := new Variable(Integer(1));
    var h := new Holder(v);
    v.value := Integer(7);
    var r := s.PutHeld(h, userText);
    r := r.Put(Character(' '), userText);
    assert os.text == Decimal(7) + " ";
    rendered := os.text;
  }

  /** `detail::serialize` of `true`, of "abc" and of an unprintable value, one after the
      other on the same stream. */
  method SerializeSequence(userText: UserValue -> string) returns (rendered: string)
    ensures rendered == "true\"abc\"?"
  {
    var os := new OStream();
    var s := new Stream(os);
    Serialize(s, Boolean(true), userText);
    Serialize(s, StdString("abc"), userText);
    Serialize(s, Unprintable, userText);
    assert os.text == "true" + "\"abc\"" + "?";
    rendered := os.text;
  }
}
