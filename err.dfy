/** res::Err, the text error carried by ResultOr, and res::ErrStream, the
    builder that composes an error message from streamed fragments. */
module ResErr {
  import opened CppStd
  import opened DecimalText
  import ResInternal
  import ResResult

  /** res::Err derives from std::string: an error is its text, and errors
      compare equal exactly when their texts do. */
  datatype Err = Err(text: string)

  /** Err(const std::string&): a copy of the given string. */
  function FromString(msg: string): (e: Err)
    ensures e.text == msg
  {
    Err(msg)
  }

  /** Err(const char*): the characters before the terminating NUL. */
  function FromCString(msg: seq<char>): (e: Err)
    requires '\0' in msg
    ensures '\0' !in e.text && e.text + "\0" <= msg
  {
    Err(CStringText(msg))
  }

  lemma CStringAgreesWithString(s: string)
    requires '\0' !in s
    ensures FromCString(s + "\0") == FromString(s)
  {
    CStringTextOfTerminated(s);
  }

  /** Equality of errors is the inherited string equality. */
  lemma EqualIffSameText(a: Err, b: Err)
    ensures a == b <==> a.text == b.text
  {
  }

  /** A value streamed into an ErrStream: the model covers strings and
      integers. A `Text` fragment is a std::string, appended whole, or the
      text of a C string literal before its NUL. */
  datatype Fragment = Text(s: string) | Number(n: int)

  /** The text that `<<` appends for one fragment. */
  function Rendered(f: Fragment): (r: string)
    ensures f.Text? ==> r == f.s
    ensures f.Number? ==> |r| >= 1 && AllDigits(if r[0] == '-' then r[1..] else r)
    ensures f.Number? ==> ParseInt(r) == f.n
    ensures f.Number? ==> var d := if f.n < 0 then r[1..] else r;
      |d| >= 1 && (d[0] == '0' <==> f.n == 0) && (f.n == 0 ==> d == "0")
  {
    match f
    case Text(s) => s
    case Number(n) => IntToDecimalRoundTrip(n); IntToDecimal(n)
  }

  /** The text accumulated by streaming `fs` in order into an empty
      stream: each fragment is appended after the ones before it. */
  function Render(fs: seq<Fragment>): (r: string)
    ensures fs == [] ==> r == ""
    ensures fs != [] ==> Rendered(fs[0]) <= r
  {
    if fs == [] then "" else Render(fs[..|fs| - 1]) + Rendered(fs[|fs| - 1])
  }

  /** Streaming two runs of fragments one after the other gives the two
      texts one after the other. */
  lemma {:induction false} RenderAppend(a: seq<Fragment>, b: seq<Fragment>)
    ensures Render(a + b) == Render(a) + Render(b)
    decreases |b|
  {
    if b != [] {
      var last := b[|b| - 1];
      assert (a + b)[..|a + b| - 1] == a + b[..|b| - 1];
      RenderAppend(a, b[..|b| - 1]);
      assert Render(a + b) == Render(a + b[..|b| - 1]) + Rendered(last);
    } else {
      assert a + b == a;
    }
  }

  lemma RenderNotFound404()
    ensures Render([Text("not found "), Number(404)]) == "not found 404"
  {
    IntToDecimal404();
    assert [Text("not found "), Number(404)][..1] == [Text("not found ")];
  }

  /** res::ErrStream, a std::stringstream: `buffer` is its contents, and
      the ghost `written` lists the fragments streamed into it so far. */
  class ErrStream {
    var buffer: string
    ghost var written: seq<Fragment>

    ghost predicate Valid()
      reads this
    {
      buffer == Render(written)
    }

    /** ErrStream(): an empty stream. */
    constructor ()
      ensures Valid() && written == [] && buffer == ""
    {
      buffer := "";
      written := [];
    }

    /** `stream << f`: appends the text of `f` to the contents. */
    method Write(f: Fragment)
      requires Valid()
      modifies this
      ensures Valid() && written == old(written) + [f]
      ensures buffer == old(buffer) + Rendered(f)
    {
      buffer := buffer + Rendered(f);
      written := written + [f];
      assert written[..|written| - 1] == old(written);
    }

    /** str(): the accumulated text. */
    function Str(): (s: string)
      reads this
      requires Valid()
      ensures s == Render(written)
    {
      buffer
    }
  }

  /** Err(const ErrStream&): the stream's accumulated text. */
  function FromStream(es: ErrStream): (e: Err)
    reads es
    requires es.Valid()
    ensures e.text == Render(es.written)
  {
    Err(es.Str())
  }

  /** `res::Err err = res::ErrStream() << "not found " << 404;` */
  method NotFoundErr() returns (e: Err)
    ensures e.text == "not found 404"
  {
    var es := new ErrStream();
    es.Write(Text("not found "));
    es.Write(Number(404));
    e := FromStream(es);
    RenderNotFound404();
  }

  /** `res::Result result = res::ErrStream() << "not found " << 404;`: the
      streamed text becomes the internal::Err of an error Result. */
  method NotFoundResult() returns (r: ResResult.Result)
    ensures ResResult.IsErr(r)
    ensures ResResult.UnwrapErr(r) == Returned(ResInternal.Err("not found 404"))
  {
    var e := NotFoundErr();
    r := ResResult.FromErr(ResInternal.FromString(e.text));
  }
}
