/** res::ResultOr<T>: the same two-state container as ResultOf, but its
    error is the string-backed res::Err and misuse of an accessor throws
    std::runtime_error. */
module ResResultOr {
  import opened CppStd
  import opened ResErr

  const UninitializedMessage := "result-or is uninitialized"
  const UnwrapContentMessage := "unable to unwrap content of error result-or"
  const UnwrapErrorMessage := "unable to unwrap error of ok result-or"

  /** The private fields `data` and `data_is_err`. */
  datatype Fields<T> = Fields(data: Variant<T, Err>, dataIsErr: bool)

  /** A ResultOr<T> is a pair of fields in which the tag is set exactly
      when the variant holds the Err: the constructors set both fields
      together, and nothing else writes them. */
  type ResultOr<T> = r: Fields<T> | r.dataIsErr <==> r.data.Second?
    witness Fields(Second(Err(UninitializedMessage)), true)

  /** is_ok(): the tag is clear, which is exactly when the variant holds
      the value. */
  function IsOk<T>(r: ResultOr<T>): (b: bool)
    ensures b <==> r.data.First?
  {
    !r.dataIsErr
  }

  /** is_err(): the tag is set; always the negation of is_ok(). */
  function IsErr<T>(r: ResultOr<T>): (b: bool)
    ensures b == !IsOk(r)
    ensures b <==> r.data.Second?
  {
    r.dataIsErr
  }

  /** unwrap(): the value, or std::runtime_error when the status is not
      ok. */
  function Unwrap<T>(r: ResultOr<T>): (c: Call<T>)
    ensures c.Returned? <==> IsOk(r)
    ensures c.Threw? ==> c.exception == RuntimeError("unable to unwrap content of error result-or")
    ensures c.Returned? ==> r.data == First(c.value)
  {
    if r.dataIsErr then Threw(RuntimeError(UnwrapContentMessage))
    else Returned(r.data.first)
  }

  /** unwrap_err(): the Err, or std::runtime_error when the status is ok. */
  function UnwrapErr<T>(r: ResultOr<T>): (c: Call<Err>)
    ensures c.Returned? <==> IsErr(r)
    ensures c.Threw? ==> c.exception == RuntimeError("unable to unwrap error of ok result-or")
    ensures c.Returned? ==> r.data == Second(c.value)
  {
    if !r.dataIsErr then Threw(RuntimeError(UnwrapErrorMessage))
    else Returned(r.data.second)
  }

  /** ResultOr(const T&): ok, holding `v`. */
  function FromValue<T>(v: T): (r: ResultOr<T>)
    ensures IsOk(r) && !IsErr(r)
    ensures Unwrap(r) == Returned(v)
    ensures UnwrapErr(r) == Threw(RuntimeError(UnwrapErrorMessage))
  {
    Fields(First(v), false)
  }

  /** ResultOr(const Err&): an error, holding `e`. */
  function FromErr<T>(e: Err): (r: ResultOr<T>)
    ensures IsErr(r) && !IsOk(r)
    ensures UnwrapErr(r) == Returned(e)
    ensures Unwrap(r) == Threw(RuntimeError(UnwrapContentMessage))
  {
    Fields(Second(e), true)
  }

  /** ResultOr(): delegates to the error constructor with an Err built
      from the C string literal of the sentinel. */
  function Default<T>(): (r: ResultOr<T>)
    ensures IsErr(r)
    ensures UnwrapErr(r) == Returned(Err("result-or is uninitialized"))
  {
    CStringAgreesWithString(UninitializedMessage);
    FromErr(FromCString(UninitializedMessage + "\0"))
  }

  /** `ResultOr<T>(Err(stream))`: an error whose text is what the stream
      accumulated, the streamed fragments rendered in order. */
  function FromStream<T>(es: ErrStream): (r: ResultOr<T>)
    reads es
    requires es.Valid()
    ensures IsErr(r)
    ensures UnwrapErr(r) == Returned(Err(Render(es.written)))
  {
    FromErr(ResErr.FromStream(es))
  }

  /** Every ResultOr is what one of its two constructors builds from the
      payload that its accessors report. */
  lemma Reconstruct<T>(r: ResultOr<T>)
    ensures IsOk(r) ==> r == FromValue(Unwrap(r).value)
    ensures IsErr(r) ==> r == FromErr(UnwrapErr(r).value)
  {
  }

  /** Reassignment leaves no residue: two results are the same exactly
      when they report the same payload. */
  lemma ObservationsDetermineState<T>(a: ResultOr<T>, b: ResultOr<T>)
    ensures a == b <==> Unwrap(a) == Unwrap(b) && UnwrapErr(a) == UnwrapErr(b)
  {
  }
}
