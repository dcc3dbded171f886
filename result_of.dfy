/** res::ResultOf<T>: either an ok status holding a value of type T or an
    error status holding an error::Error, stored as a variant together
    with a redundant tag. */
module ResResultOf {
  import opened CppStd
  import opened ErrorLib
  import ResInternal
  import ResResult

  const UninitializedMessage := "result-of is uninitialized"
  const UnwrapContentMessage := "Unable to unwrap content of error result-of"
  const UnwrapErrorMessage := "Unable to unwrap error of ok result-of"

  /** The private fields `data` and `data_is_err`. */
  datatype Fields<T> = Fields(data: Variant<T, Error>, dataIsErr: bool)

  /** A ResultOf<T> is a pair of fields in which the tag is set exactly
      when the variant holds the error: every constructor establishes
      this, and nothing else writes the (private) fields. */
  type ResultOf<T> = r: Fields<T> | r.dataIsErr <==> r.data.Second?
    witness Fields(Second(Error(UninitializedMessage)), true)

  /** is_ok(): the tag is clear, which is exactly when the variant holds
      the value. */
  function IsOk<T>(r: ResultOf<T>): (b: bool)
    ensures b <==> r.data.First?
  {
    !r.dataIsErr
  }

  /** is_err(): the tag is set; always the negation of is_ok(). */
  function IsErr<T>(r: ResultOf<T>): (b: bool)
    ensures b == !IsOk(r)
    ensures b <==> r.data.Second?
  {
    r.dataIsErr
  }

  /** unwrap(): the value, or a thrown error::Error when the status is
      not ok. */
  function Unwrap<T>(r: ResultOf<T>): (c: Call<T>)
    ensures c.Returned? <==> IsOk(r)
    ensures c.Threw? ==> c.exception == ErrorObject(Error("Unable to unwrap content of error result-of"))
    ensures c.Returned? ==> r.data == First(c.value)
  {
    if r.dataIsErr then Threw(ErrorObject(Error(UnwrapContentMessage)))
    else Returned(r.data.first)
  }

  /** unwrap_err(): the error, or a thrown error::Error when the status is
      ok. */
  function UnwrapErr<T>(r: ResultOf<T>): (c: Call<Error>)
    ensures c.Returned? <==> IsErr(r)
    ensures c.Threw? ==> c.exception == ErrorObject(Error("Unable to unwrap error of ok result-of"))
    ensures c.Returned? ==> r.data == Second(c.value)
  {
    if !r.dataIsErr then Threw(ErrorObject(Error(UnwrapErrorMessage)))
    else Returned(r.data.second)
  }

  /** ResultOf(const T&): ok, holding `v`. */
  function FromValue<T>(v: T): (r: ResultOf<T>)
    ensures IsOk(r) && !IsErr(r)
    ensures Unwrap(r) == Returned(v)
    ensures UnwrapErr(r) == Threw(ErrorObject(Error(UnwrapErrorMessage)))
  {
    Fields(First(v), false)
  }

  /** ResultOf(const error::Error&): an error, holding `e`. */
  function FromError<T>(e: Error): (r: ResultOf<T>)
    ensures IsErr(r) && !IsOk(r)
    ensures UnwrapErr(r) == Returned(e)
    ensures Unwrap(r) == Threw(ErrorObject(Error(UnwrapContentMessage)))
  {
    Fields(Second(e), true)
  }

  /** ResultOf(): delegates to the error constructor with the sentinel. */
  function Default<T>(): (r: ResultOf<T>)
    ensures IsErr(r)
    ensures UnwrapErr(r) == Returned(Error("result-of is uninitialized"))
  {
    FromError(Error(UninitializedMessage))
  }

  /** as<U>(): an error is copied unchanged; an ok value is converted with
      `cast`, which stands for static_cast<U> and is applied without any
      check of the value. */
  function As<T, U>(src: ResultOf<T>, cast: T -> U): (r: ResultOf<U>)
    ensures IsOk(r) == IsOk(src)
    ensures IsErr(src) ==> UnwrapErr(r) == UnwrapErr(src)
    ensures IsOk(src) ==> Unwrap(r) == Returned(cast(Unwrap(src).value))
  {
    if src.dataIsErr then FromError(src.data.second)
    else FromValue(cast(src.data.first))
  }

  /** explicit operator ResultOf<U>(): written out again in the source,
      and the same conversion as as<U>(). */
  function Cast<T, U>(src: ResultOf<T>, cast: T -> U): (r: ResultOf<U>)
    ensures r == As(src, cast)
  {
    if src.dataIsErr then FromError(src.data.second)
    else FromValue(cast(src.data.first))
  }

  /** The error::Error to internal::Err conversion that `operator Result`
      relies on. error::Error belongs to the external error library, so the
      conversion is defined here, taken to keep the message text. */
  function ToInternalErr(e: Error): (r: ResInternal.Err)
    ensures r.text == e.message
  {
    ResInternal.FromString(e.message)
  }

  /** operator Result(): keeps the status and the error's text and drops
      the ok value. */
  function ToResult<T>(src: ResultOf<T>): (r: ResResult.Result)
    ensures ResResult.IsOk(r) == IsOk(src)
    ensures IsErr(src) ==>
      ResResult.UnwrapErr(r) == Returned(ResInternal.Err(UnwrapErr(src).value.message))
    ensures IsOk(src) ==> r == ResResult.FromOk()
  {
    if src.dataIsErr then ResResult.FromErr(ToInternalErr(src.data.second))
    else ResResult.FromOk()
  }

  /** Every ResultOf is what one of its two constructors builds from the
      payload that its accessors report. */
  lemma Reconstruct<T>(r: ResultOf<T>)
    ensures IsOk(r) ==> r == FromValue(Unwrap(r).value)
    ensures IsErr(r) ==> r == FromError(UnwrapErr(r).value)
  {
  }

  /** Reassignment leaves no residue: two results that report the same
      status and payload are the same result, whatever was assigned to
      them before. */
  lemma ObservationsDetermineState<T>(a: ResultOf<T>, b: ResultOf<T>)
    ensures a == b <==> Unwrap(a) == Unwrap(b) && UnwrapErr(a) == UnwrapErr(b)
  {
  }
}
