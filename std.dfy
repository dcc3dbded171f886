/** The parts of the C++ standard library that the headers rely on: a
    two-alternative std::variant, std::optional, NUL-terminated C strings,
    and the exceptions thrown by the accessors, together with the outcome
    of a call that may throw. */
module CppStd {
  import ErrorLib

  /** std::variant<A, B>: holds exactly one alternative at a time.
      `first` and `second` play the role of std::get<A> and std::get<B>. */
  datatype Variant<A, B> = First(first: A) | Second(second: B)

  /** std::optional<T>; `Some?` is has_value() and `value` is value(). */
  datatype Optional<T> = NullOpt | Some(value: T)

  /** An object thrown out of an accessor. */
  datatype Exception =
    | ErrorObject(error: ErrorLib.Error)  // a thrown error::Error
    | RuntimeError(what: string)    // a thrown std::runtime_error

  /** The outcome of calling a member that may throw: either it returns
      normally with a value, or it throws an exception. */
  datatype Call<X> = Returned(value: X) | Threw(exception: Exception)

  /** The text that std::string copies out of a C string: every character
      before the first NUL. The array must be NUL-terminated. */
  function CStringText(cs: seq<char>): (s: string)
    requires '\0' in cs
    ensures '\0' !in s
    ensures s + "\0" <= cs
  {
    if cs[0] == '\0' then "" else [cs[0]] + CStringText(cs[1..])
  }

  /** Reading back a string that was stored with a NUL terminator gives
      the string itself. */
  lemma {:induction false} CStringTextOfTerminated(s: string)
    requires '\0' !in s
    ensures CStringText(s + "\0") == s
  {
    if s != "" {
      assert (s + "\0")[1..] == s[1..] + "\0";
      CStringTextOfTerminated(s[1..]);
    }
  }
}
