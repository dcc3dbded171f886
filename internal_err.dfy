/** res::internal::Err, the error that the payload-less Result carries, the
    uninitialized_err sentinel and the err(...) helpers. */
module ResInternal {
  import opened CppStd

  /** internal::Err derives from std::string, so an error is its text and
      two errors are equal exactly when their texts are. */
  datatype Err = Err(text: string)

  /** Err(const std::string&): a copy of the given string. */
  function FromString(msg: string): (e: Err)
    ensures e.text == msg
  {
    Err(msg)
  }

  /** Err(const char*): the characters before the terminating NUL. */
  function FromCString(msg: seq<char>): (e: Err)
    requires '\0' in msg
    ensures '\0' !in e.text && e.text + "\0" <= msg
  {
    Err(CStringText(msg))
  }

  /** The error held by a default-constructed Result. */
  const UninitializedText := "result is uninitialized"
  const UninitializedErr: Err := Err(UninitializedText)

  /** uninitialized_err is built with the C-string constructor from its
      literal, and holds exactly that literal's text. */
  lemma UninitializedErrFromCString()
    ensures UninitializedErr == FromCString(UninitializedText + "\0")
    ensures UninitializedErr.text == "result is uninitialized"
  {
    CStringTextOfTerminated(UninitializedText);
  }

  /** err(const std::string&) */
  function ErrOf(msg: string): (e: Err)
    ensures e.text == msg
  {
    FromString(msg)
  }

  /** err(const char*) */
  function ErrOfCString(msg: seq<char>): (e: Err)
    requires '\0' in msg
    ensures '\0' !in e.text && e.text + "\0" <= msg
  {
    FromCString(msg)
  }

  /** Both constructors store the same text for the same message. */
  lemma CStringAgreesWithString(s: string)
    requires '\0' !in s
    ensures FromCString(s + "\0") == FromString(s)
    ensures ErrOfCString(s + "\0") == ErrOf(s)
  {
    CStringTextOfTerminated(s);
  }

  /** Equality of errors is the inherited string equality. */
  lemma EqualIffSameText(a: Err, b: Err)
    ensures a == b <==> a.text == b.text
  {
  }
}
