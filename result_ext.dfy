/** `ResultExt` (src/result_ext.rs, nightly only): `me_l` adds a text link,
    `me_al` turns the error into a text chain. Four implementations, chosen by
    the error type at compile time, each its own pair of functions here:
    a bare displayable error (the `default fn` impl), a `String` error, an
    `ErrorLink_<P>` and an `ErrorLink_<String>`. Every method is a `map_err`,
    so an `Ok` passes through untouched. */
module ResultExt {
  import opened Wrappers
  import opened Formatting
  import ErrorLinks
  import LinkableResults

  type ErrorLink<P> = ErrorLinks.ErrorLink<P>

  // ---------------------------------------------------------------------------
  // A bare displayable error.

  /** `me_l`: the message, then the error's text, ending in a freshly captured
      backtrace. */
  function MeL<O, E>(r: Result<O, E>, message: string, show: E -> string, captured: Backtrace)
    : (m: Result<O, ErrorLink<string>>)
    ensures m.Ok? <==> r.Ok?
    ensures r.Ok? ==> m.value == r.value
    ensures r.Err? ==> ErrorLinks.Texts(m.error, s => s) == [message, show(r.error)]
    ensures r.Err? ==> ErrorLinks.TailBacktrace(m.error) == captured
    ensures m == LinkableResults.MeLinkValue(r, message, show, captured)
  {
    var m := MapErr(r, (e: E) =>
      var nextLink := ErrorLinks.ErrorLink(show(e), ErrorLinks.None(captured));
      ErrorLinks.ErrorLink(message, ErrorLinks.Some(nextLink)));
    assert r.Err? ==>
      ErrorLinks.TailTexts(m.error) == [show(r.error)] && ErrorLinks.TailBacktrace(m.error) == captured
    by {
      if r.Err? {
        ErrorLinks.TwoLinkShape(message, show(r.error), captured);
      }
    }
    m
  }

  /** `me_al`: one link, the error's text, with a freshly captured backtrace. */
  function MeAl<O, E>(r: Result<O, E>, show: E -> string, captured: Backtrace)
    : (m: Result<O, ErrorLink<string>>)
    ensures m.Ok? <==> r.Ok?
    ensures r.Ok? ==> m.value == r.value
    ensures r.Err? ==> ErrorLinks.Texts(m.error, s => s) == [show(r.error)]
    ensures r.Err? ==> ErrorLinks.TailBacktrace(m.error) == captured
    ensures m == LinkableResults.MeAsSlinkValue(r, show, captured)
  {
    MapErr(r, (e: E) => ErrorLinks.ErrorLink(show(e), ErrorLinks.None(captured)))
  }

  // ---------------------------------------------------------------------------
  // A `String` error: the same shapes, the error used as it is.

  /** `me_l` on a `String` error. */
  function MeLString<O>(r: Result<O, string>, message: string, captured: Backtrace)
    : (m: Result<O, ErrorLink<string>>)
    ensures m == MeL(r, message, s => s, captured)
  {
    MapErr(r, (e: string) =>
      var nextLink := ErrorLinks.ErrorLink(e, ErrorLinks.None(captured));
      ErrorLinks.ErrorLink(message, ErrorLinks.Some(nextLink)))
  }

  /** `me_al` on a `String` error. */
  function MeAlString<O>(r: Result<O, string>, captured: Backtrace)
    : (m: Result<O, ErrorLink<string>>)
    ensures m == MeAl(r, s => s, captured)
  {
    MapErr(r, (e: string) => ErrorLinks.ErrorLink(e, ErrorLinks.None(captured)))
  }

  // ---------------------------------------------------------------------------
  // An `ErrorLink_<P>` error.

  /** `me_l` on a chain: one link more, the old head now text, the backtrace
      not recaptured. */
  function MeLChain<O, P>(r: Result<O, ErrorLink<P>>, message: string, show: P -> string)
    : (m: Result<O, ErrorLink<string>>)
    ensures m.Ok? <==> r.Ok?
    ensures r.Ok? ==> m.value == r.value
    ensures r.Err? ==> ErrorLinks.Texts(m.error, s => s) == [message] + ErrorLinks.Texts(r.error, show)
    ensures r.Err? ==> ErrorLinks.Length(m.error) == ErrorLinks.Length(r.error) + 1
    ensures r.Err? ==> ErrorLinks.TailBacktrace(m.error) == ErrorLinks.TailBacktrace(r.error)
    ensures m == LinkableResults.MeLinkChain(r, message, show)
  {
    MapErr(r, (e: ErrorLink<P>) =>
      var nextLink := ErrorLinks.ErrorLink(show(e.payload), e.next);
      ErrorLinks.ErrorLink(message, ErrorLinks.Some(nextLink)))
  }

  /** `me_al` on a chain: the head turned into text, the rest kept. */
  function MeAlChain<O, P>(r: Result<O, ErrorLink<P>>, show: P -> string)
    : (m: Result<O, ErrorLink<string>>)
    ensures m.Ok? <==> r.Ok?
    ensures r.Ok? ==> m.value == r.value
    ensures r.Err? ==> ErrorLinks.Texts(m.error, s => s) == ErrorLinks.Texts(r.error, show)
    ensures r.Err? ==> m.error.next == r.error.next
    ensures m == LinkableResults.MeAsSlinkChain(r, show)
  {
    MapErr(r, (e: ErrorLink<P>) => ErrorLinks.ErrorLink(show(e.payload), e.next))
  }

  // ---------------------------------------------------------------------------
  // An `ErrorLink_<String>` error.

  /** `me_l` on a text chain: the whole chain, unchanged, becomes the next link. */
  function MeLStringChain<O>(r: Result<O, ErrorLink<string>>, message: string)
    : (m: Result<O, ErrorLink<string>>)
    ensures m.Ok? <==> r.Ok?
    ensures r.Ok? ==> m.value == r.value
    ensures r.Err? ==> m.error.payload == message && m.error.next == ErrorLinks.Some(r.error)
    ensures m == MeLChain(r, message, s => s)
  {
    MapErr(r, (e: ErrorLink<string>) => ErrorLinks.ErrorLink(message, ErrorLinks.Some(e)))
  }

  /** `me_al` on a text chain: the identity. */
  function MeAlStringChain<O>(r: Result<O, ErrorLink<string>>): (m: Result<O, ErrorLink<string>>)
    ensures m == r
    ensures m == MeAlChain(r, s => s)
  {
    r
  }
}
