/** res::Result, the payload-less result: an optional error, where an
    empty optional means ok. */
module ResResult {
  import opened CppStd
  import opened ResInternal

  /** The one private field, err_opt. */
  datatype Result = Result(errOpt: Optional<Err>)

  const IsOkMessage := "is ok"

  /** is_ok(): no error is present, so the whole state is the empty
      optional. */
  function IsOk(r: Result): (b: bool)
    ensures b <==> r == Result(NullOpt)
  {
    !r.errOpt.Some?
  }

  /** is_err(): an error is present; always the negation of is_ok(). */
  function IsErr(r: Result): (b: bool)
    ensures b == !IsOk(r)
  {
    r.errOpt.Some?
  }

  /** unwrap_err(): the stored error, or std::runtime_error("is ok") when
      there is none. */
  function UnwrapErr(r: Result): (c: Call<Err>)
    ensures c.Threw? <==> IsOk(r)
    ensures c.Threw? ==> c.exception == RuntimeError("is ok")
    ensures c.Returned? ==> r.errOpt == Some(c.value)
  {
    if !r.errOpt.Some? then Threw(RuntimeError(IsOkMessage))
    else Returned(r.errOpt.value)
  }

  /** Result(): an error holding uninitialized_err. */
  function Default(): (r: Result)
    ensures IsErr(r)
    ensures UnwrapErr(r) == Returned(Err("result is uninitialized"))
  {
    Result(Some(UninitializedErr))
  }

  /** Result(const Ok&): ok. */
  function FromOk(): (r: Result)
    ensures IsOk(r) && !IsErr(r)
    ensures UnwrapErr(r) == Threw(RuntimeError("is ok"))
  {
    Result(NullOpt)
  }

  /** Result(const internal::Err&): an error holding exactly `e`. */
  function FromErr(e: Err): (r: Result)
    ensures IsErr(r) && !IsOk(r)
    ensures UnwrapErr(r) == Returned(e)
  {
    Result(Some(e))
  }

  /** An ok Result carries no payload: there is only one ok state. */
  lemma OkHasNoPayload(r: Result)
    requires IsOk(r)
    ensures r == FromOk()
  {
  }

  /** A Result is determined by what is_ok() and unwrap_err() report. */
  lemma ObservationsDetermineResult(a: Result, b: Result)
    ensures a == b <==> IsOk(a) == IsOk(b) && UnwrapErr(a) == UnwrapErr(b)
  {
  }
}
