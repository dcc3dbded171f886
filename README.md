# A verified model of the `res` value-or-error library

The library gives C++ code a value-or-error container, so that a function can
report failure without throwing. It has three revisions of the same two-state
container:

- `res::ResultOf<T>` holds either a value of type `T` or an `error::Error`.
- `res::ResultOr<T>` holds either a value or a string-backed `res::Err`.
- `res::Result` has no payload. It is an optional `internal::Err`, and empty means ok.

It also has the string-backed error types and `res::ErrStream`, which builds a
message by streaming fragments into it.

This project models each header as a Dafny module, proves what each operation
promises, and proves the links between the operations.

| module | file | models |
|---|---|---|
| `CppStd` | `std.dfy` | `std::variant` (two alternatives), `std::optional`, thrown exceptions, and the text `std::string` copies out of a NUL-terminated C string |
| `DecimalText` | `decimal.dfy` | the decimal text an output stream writes for an integer, with a parser that proves it round-trips |
| `ErrorLib` | `error_lib.dfy` | the external `error::Error`, as a record with a `message` |
| `ResInternal` | `internal_err.dfy` | `internal::Err`, `uninitialized_err`, the `err(...)` helpers |
| `ResResult` | `result.dfy` | `res::Result` |
| `ResErr` | `err.dfy` | `res::Err` and `res::ErrStream` |
| `ResResultOf` | `result_of.dfy` | `res::ResultOf<T>` |
| `ResResultOr` | `result_or.dfy` | `res::ResultOr<T>` |

Modelling choices:

- **Throwing accessors.** `unwrap` and `unwrap_err` never have a precondition. They return a `Call<X>`, which is either `Returned(value)` or `Threw(exception)`. The exception carries the exact object the source throws:
  - an `error::Error` with the source's message, for `ResultOf`;
  - a `std::runtime_error` with the source's message, for `ResultOr` and `Result`.
- **Private fields become a datatype.** `ResultOf` and `ResultOr` keep the source's two private fields, `data` (a variant) and `dataIsErr` (a tag). A subset type holds the class invariant: the tag is set exactly when the variant holds the error. Each constructor must prove it. The accessors rely on it when they read the active alternative, as `std::get` does.
- **Value semantics.** Every member of `ResultOf`, `ResultOr` and `Result` is `const`, and the only change to one of them is whole-object assignment. So the model works on values. The "no residue after reassignment" property is stated as: a result is determined by what its accessors report.
- **C strings.** The C-string constructors take a NUL-terminated character sequence and keep the characters before the first NUL. The model proves that this agrees with the `std::string` constructor on the same text.
- **Casts.** `static_cast<U>` in `as<U>()` and in the explicit cast is a total function parameter `cast: T -> U`. It is applied to the value without any check, as in the source.
- **`ErrStream`.** It is a class whose `buffer` is the stream's contents. A ghost `written` field lists the fragments streamed so far. `Valid()` ties them together: `buffer == Render(written)`. `Write` appends one fragment's text in place. Fragments are strings or integers, and integers are written in decimal with a leading `-` when negative. `ErrStream` is the one part of the library that changes state in place, so it is the one class in the model.
- **Sentinels.** `ResultOr`'s uninitialized message, "result-or is uninitialized", is built with the C-string constructor of `res::Err`. The model does the same, and proves that this gives exactly that text.

Where the headers are incomplete or their comments differ from the code:

- `result.hpp` includes `internal/ok.hpp` and names `internal::Ok`. `internal/ok.hpp` is not modelled; its `internal::Ok` is taken to be the empty tag struct `res::Ok` of `ok.hpp`. `Result(const Ok&)` is the payload-less ok constructor `ResResult.FromOk`.
- `operator Result` in `result_of.hpp` hands an `error::Error` to a `Result` constructor that takes an `internal::Err`. `error::Error` comes from the external error library, which this model does not cover. The headers do not define that conversion; `ResResultOf.ToInternalErr` defines it for the model and keeps the message text.
- The doc examples in `err.hpp` stream into a temporary `ErrStream()`. Inserting into an rvalue stream returns the stream itself (`ErrStream&&`), so `res::Err err = res::ErrStream() << "not found " << 404;` reaches `Err(const ErrStream&)` directly; `ResErr.NotFoundErr` is exactly that. The `res::Result` example needs one more step that the headers do not provide, because `Result` takes an `internal::Err`. `ResErr.NotFoundResult` makes it explicit by copying the `res::Err`'s text into an `internal::Err`. The example `res::Result result = res::Err("undefined error");` needs the same missing step.

## Model

| member | source | states |
|---|---|---|
| CppStd.CStringText | include/result/internal/err.hpp:11 | the text read from a NUL-terminated array has no NUL, and followed by a NUL it is a prefix of the array (so it is everything before the first NUL) |
| CppStd.CStringTextOfTerminated | include/result/err.hpp:53 | a NUL-free string stored with its terminator reads back as itself |
| DecimalText.NatToDecimal | include/result/err.hpp:13 | the text of a natural number is a non-empty run of digits that starts with `0` only for zero, and is exactly "0" then |
| DecimalText.IntToDecimal | include/result/err.hpp:13 | the text of an integer is non-empty and starts with `-` exactly when the integer is negative; after the sign come digits with no leading zero, and exactly "0" for zero |
| DecimalText.NatToDecimalRoundTrip | include/result/err.hpp:13-15 | parsing the digits written for n gives back n |
| DecimalText.IntToDecimalRoundTrip | include/result/err.hpp:13-15 | parsing the text written for any integer gives back that integer |
| DecimalText.IntToDecimalInjective | include/result/err.hpp:13-15 | distinct integers are written as distinct texts |
| DecimalText.IntToDecimal404 | include/result/err.hpp:13-15 | 404 is written as "404" |
| ResInternal.FromString | include/result/internal/err.hpp:10 | an `internal::Err` built from a string holds exactly that text |
| ResInternal.FromCString | include/result/internal/err.hpp:11 | an `internal::Err` built from a C string holds the text before its terminating NUL |
| ResInternal.ErrOf | include/result/internal/err.hpp:17 | `err(std::string)` returns an error whose text is the message |
| ResInternal.ErrOfCString | include/result/internal/err.hpp:18 | `err(const char*)` returns an error whose text is the characters before the NUL |
| ResInternal.CStringAgreesWithString | include/result/internal/err.hpp:10-18 | both constructors, and both `err` overloads, give the same error for the same text |
| ResInternal.UninitializedErrFromCString | include/result/internal/err.hpp:14 | `uninitialized_err` is what the C-string constructor builds from its literal, and its text is exactly "result is uninitialized" |
| ResInternal.EqualIffSameText | include/result/internal/err.hpp:9 | two errors are equal exactly when their texts are equal |
| ResResult.IsOk | include/result/result.hpp:18 | `is_ok` holds exactly when the whole state is the empty optional, with no error present |
| ResResult.IsErr | include/result/result.hpp:18-19 | `is_err` is always the negation of `is_ok`, which holds exactly when the optional is empty |
| ResResult.UnwrapErr | include/result/result.hpp:21-24 | `unwrap_err` throws `runtime_error("is ok")` exactly when the result is ok; otherwise it returns the stored error |
| ResResult.Default | include/result/result.hpp:14 | a default Result is an error whose `unwrap_err` is "result is uninitialized" |
| ResResult.FromOk | include/result/result.hpp:15 | a Result built from Ok is ok, and `unwrap_err` on it throws "is ok" |
| ResResult.FromErr | include/result/result.hpp:16 | a Result built from an error is err, and `unwrap_err` returns that same error |
| ResResult.OkHasNoPayload | include/result/result.hpp:12-15 | every ok Result is the one built from Ok: an ok result stores nothing |
| ResResult.ObservationsDetermineResult | include/result/result.hpp:12-24 | two Results are equal exactly when `is_ok` and `unwrap_err` agree on them |
| ResErr.FromString | include/result/err.hpp:43 | an `Err` built from a string equals that string |
| ResErr.FromCString | include/result/err.hpp:53 | an `Err` built from a C string equals the text before its NUL |
| ResErr.CStringAgreesWithString | include/result/err.hpp:43-53 | the C-string and string constructors give the same `Err` for the same text |
| ResErr.EqualIffSameText | include/result/err.hpp:34 | errors compare equal exactly when their texts do |
| ResErr.Rendered | include/result/err.hpp:18 | `<<` appends a string fragment verbatim, and for an integer appends its canonical decimal text (a `-` only for negatives, no leading zeros) that reads back as that integer |
| ResErr.Render | include/result/err.hpp:18 | an empty stream renders as the empty text, and the first fragment's text starts the rendering; `Write` keeps the buffer equal to `Render` of the fragments streamed so far, and `RenderAppend` shows it is their texts concatenated in order |
| ResErr.RenderAppend | include/result/err.hpp:18 | streaming two runs of fragments one after the other gives their texts one after the other |
| ResErr.RenderNotFound404 | include/result/err.hpp:12-16 | streaming "not found " then 404 gives "not found 404" |
| ResErr.ErrStream.constructor | include/result/err.hpp:18 | a new stream is empty and holds no fragments |
| ResErr.ErrStream.Write | include/result/err.hpp:12-18 | `<<` appends the fragment's text to the contents and records the fragment after the earlier ones |
| ResErr.ErrStream.Str | include/result/err.hpp:63 | `str()` is the rendering of all fragments streamed so far, in order |
| ResErr.FromStream | include/result/err.hpp:63 | an `Err` built from a stream equals the stream's accumulated text |
| ResErr.NotFoundErr | include/result/err.hpp:58-60 | `Err(ErrStream() << "not found " << 404)` is "not found 404" |
| ResErr.NotFoundResult | include/result/err.hpp:12-16 | a Result built from that stream is err, and `unwrap_err` returns "not found 404" |
| ResResultOf.IsOk | include/result/result_of.hpp:116 | `is_ok` holds exactly when the variant holds the value |
| ResResultOf.IsErr | include/result/result_of.hpp:121 | `is_err` is the negation of `is_ok` and holds exactly when the variant holds the error |
| ResResultOf.Unwrap | include/result/result_of.hpp:138-142 | `unwrap` returns exactly when ok, and then returns the held value; otherwise it throws `error::Error("Unable to unwrap content of error result-of")` |
| ResResultOf.UnwrapErr | include/result/result_of.hpp:159-163 | `unwrap_err` returns exactly when err, and then returns the held error; otherwise it throws `error::Error("Unable to unwrap error of ok result-of")` |
| ResResultOf.FromValue | include/result/result_of.hpp:52 | a ResultOf built from a value is ok, `unwrap` returns that value, and `unwrap_err` throws |
| ResResultOf.FromError | include/result/result_of.hpp:62 | a ResultOf built from an error is err, `unwrap_err` returns that error, and `unwrap` throws |
| ResResultOf.Default | include/result/result_of.hpp:42 | a default ResultOf is err with message "result-of is uninitialized" |
| ResResultOf.As | include/result/result_of.hpp:107-111 | `as<U>` keeps the status; an error is copied unchanged, and an ok value becomes ok of the cast value |
| ResResultOf.Cast | include/result/result_of.hpp:75-79 | the explicit cast operator is the same conversion as `as<U>` |
| ResResultOf.ToInternalErr | include/result/result_of.hpp:91 | the `error::Error` to `internal::Err` step of `operator Result` keeps the message text |
| ResResultOf.ToResult | include/result/result_of.hpp:90-93 | conversion to Result keeps the status and the error's text, and an ok result becomes the payload-less ok |
| ResResultOf.Reconstruct | include/result/result_of.hpp:52-62 | every ResultOf is what a constructor builds from the payload its accessors report |
| ResResultOf.ObservationsDetermineState | include/result/result_of.hpp:30-31 | two ResultOfs are equal exactly when `unwrap` and `unwrap_err` agree on them, so reassignment leaves no residue |
| ResResultOr.IsOk | include/result/result_or.hpp:19 | `is_ok` holds exactly when the variant holds the value |
| ResResultOr.IsErr | include/result/result_or.hpp:20 | `is_err` is the negation of `is_ok` and holds exactly when the variant holds the `Err` |
| ResResultOr.Unwrap | include/result/result_or.hpp:22-26 | `unwrap` returns the held value exactly when ok; otherwise it throws `runtime_error("unable to unwrap content of error result-or")` |
| ResResultOr.UnwrapErr | include/result/result_or.hpp:28-32 | `unwrap_err` returns the held `Err` exactly when err; otherwise it throws `runtime_error("unable to unwrap error of ok result-or")` |
| ResResultOr.FromValue | include/result/result_or.hpp:16 | a ResultOr built from a value is ok, and `unwrap` returns that value |
| ResResultOr.FromErr | include/result/result_or.hpp:17 | a ResultOr built from an `Err` is err, and `unwrap_err` returns that `Err` |
| ResResultOr.Default | include/result/result_or.hpp:15 | a default ResultOr is err, and its `Err` text is "result-or is uninitialized" |
| ResResultOr.FromStream | include/result/result_or.hpp:17 | a ResultOr built from a stream's `Err` is err, and its text is the streamed fragments in order |
| ResResultOr.Reconstruct | include/result/result_or.hpp:16-17 | every ResultOr is what a constructor builds from the payload its accessors report |
| ResResultOr.ObservationsDetermineState | include/result/result_or.hpp:12-13 | two ResultOrs are equal exactly when `unwrap` and `unwrap_err` agree on them, so reassignment leaves no residue |

## Left out

- Exceptions as control flow: a throw is the `Threw` outcome of a `Call`, and nothing models unwinding or catching.
- `std::get` on the wrong alternative cannot happen, because the tag/variant invariant is part of the type. So `std::bad_variant_access` is not modelled.
- Floating-point conversions, such as the int-to-float cast in the `as` example: `static_cast<U>` is an arbitrary total function with no numeric meaning.
- Integer widths: streamed integers are unbounded. `short`, `int`, `long`, `long long` and their unsigned forms all print the same decimal text for the same value, so width only limits which values occur.
- Character-typed fragments: `char`, `signed char` and `unsigned char` (and so usually `std::int8_t` and `std::uint8_t`) are written as characters, not as numbers. A `Number` fragment never stands for one of them.
- C-string fragments: a `Text` fragment stands for a `std::string`, appended whole, or for a `const char*` literal's text before its NUL. Streaming a C string with an embedded NUL is not modelled.
- Stream formatting of anything other than strings and integers, including flags, width and locale. Characters are Dafny `char`s rather than bytes.
- `ResultOr` conversions: `as`, the explicit cast and conversion to `Result`. The tests use them, but `result_or.hpp` does not define them, so they are not modelled.
- The doc example in `err.hpp` assigns an `Err` to `ResultOf<int>`. That needs a conversion from `Err` to `error::Error`, which would belong to the external error library. This model does not cover that library, so the example is not modelled.
- `ok.hpp`'s empty `Ok` struct has no state. It appears only as the payload-less ok constructor.
- `internal/err_msg.hpp` is a shared-pointer alias and a constant that duplicates `uninitialized_err`. It is not part of this model.
- The unrelated `Result<T>` revision the older tests target, with sentinel "the result is uninitialized", is not modelled. The headers' text "result is uninitialized" is used.
- Object lifetime, copying and destruction: everything is a value.
- The documentation build script and the test harness are not modelled.
