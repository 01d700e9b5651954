/** `LinkableResult1of2`, `LinkableResult2of2` and `From<P> for ErrorLink_<P>`
    (src/linkable_results.rs): the chain operations lifted to a `Result`.
    Every method is a `map_err`, so an `Ok` passes through untouched.

    Rust picks the implementation from the error type at compile time; here
    each implementation is its own function: `...Value` where the error is a
    bare displayable value (the nightly `default fn` impl), `...Chain` where
    it is already an `ErrorLink_`. */
module LinkableResults {
  import opened Wrappers
  import opened Formatting
  import ErrorLinks

  type ErrorLink<P> = ErrorLinks.ErrorLink<P>

  /** `me_link` on a bare error: two links, the payload and then the error's
      text, ending in a freshly captured backtrace. */
  function MeLinkValue<O, E, Q>(r: Result<O, E>, payload: Q, show: E -> string, captured: Backtrace)
    : (m: Result<O, ErrorLink<Q>>)
    ensures m.Ok? <==> r.Ok?
    ensures r.Ok? ==> m.value == r.value
    ensures r.Err? ==> m.error.payload == payload
    ensures r.Err? ==> ErrorLinks.TailTexts(m.error) == [show(r.error)]
    ensures r.Err? ==> ErrorLinks.Length(m.error) == 2
    ensures r.Err? ==> ErrorLinks.TailBacktrace(m.error) == captured
  {
    var m := MapErr(r, (e: E) =>
      var nextLink := ErrorLinks.ErrorLink(show(e), ErrorLinks.None(captured));
      ErrorLinks.ErrorLink(payload, ErrorLinks.Some(nextLink)));
    assert r.Err? ==>
      ErrorLinks.TailTexts(m.error) == [show(r.error)] && ErrorLinks.TailBacktrace(m.error) == captured
    by {
      if r.Err? {
        ErrorLinks.TwoLinkShape(payload, show(r.error), captured);
      }
    }
    m
  }

  /** `me_as_slink` on a bare error: one link, the error's text, ending in a
      freshly captured backtrace. */
  function MeAsSlinkValue<O, E>(r: Result<O, E>, show: E -> string, captured: Backtrace)
    : (m: Result<O, ErrorLink<string>>)
    ensures m.Ok? <==> r.Ok?
    ensures r.Ok? ==> m.value == r.value
    ensures r.Err? ==> ErrorLinks.Texts(m.error, s => s) == [show(r.error)]
    ensures r.Err? ==> ErrorLinks.TailBacktrace(m.error) == captured
  {
    MapErr(r, (e: E) => ErrorLinks.ErrorLink(show(e), ErrorLinks.None(captured)))
  }

  /** `me_link` on a chain: `ErrorLink_::link` under `map_err`; one link
      more, the old head now text, the backtrace not recaptured. */
  function MeLinkChain<O, P, Q>(r: Result<O, ErrorLink<P>>, payload: Q, show: P -> string)
    : (m: Result<O, ErrorLink<Q>>)
    ensures m.Ok? <==> r.Ok?
    ensures r.Ok? ==> m.value == r.value
    ensures r.Err? ==> m.error == ErrorLinks.Link(r.error, payload, show)
    ensures r.Err? ==> ErrorLinks.Length(m.error) == ErrorLinks.Length(r.error) + 1
    ensures r.Err? ==> ErrorLinks.TailTexts(m.error) == ErrorLinks.Texts(r.error, show)
    ensures r.Err? ==> ErrorLinks.TailBacktrace(m.error) == ErrorLinks.TailBacktrace(r.error)
  {
    MapErr(r, (e: ErrorLink<P>) =>
      var nextLink := ErrorLinks.ErrorLink(show(e.payload), e.next);
      ErrorLinks.ErrorLink(payload, ErrorLinks.Some(nextLink)))
  }

  /** `me_as_slink` on a chain: the head turned into text, the rest kept. */
  function MeAsSlinkChain<O, P>(r: Result<O, ErrorLink<P>>, show: P -> string)
    : (m: Result<O, ErrorLink<string>>)
    ensures m.Ok? <==> r.Ok?
    ensures r.Ok? ==> m.value == r.value
    ensures r.Err? ==> ErrorLinks.Texts(m.error, s => s) == ErrorLinks.Texts(r.error, show)
    ensures r.Err? ==> m.error.next == r.error.next
  {
    MapErr(r, (e: ErrorLink<P>) => ErrorLinks.ErrorLink(show(e.payload), e.next))
  }

  /** `me_as_link`: `ErrorLink_::as_link` under `map_err`; the head converted
      by `From`, the rest kept. */
  function MeAsLink<O, P, Q>(r: Result<O, ErrorLink<P>>, from: P -> Q)
    : (m: Result<O, ErrorLink<Q>>)
    ensures m.Ok? <==> r.Ok?
    ensures r.Ok? ==> m.value == r.value
    ensures r.Err? ==> m.error == ErrorLinks.AsLink(r.error, from)
    ensures r.Err? ==> m.error.payload == from(r.error.payload) && m.error.next == r.error.next
  {
    MapErr(r, (e: ErrorLink<P>) => ErrorLinks.ErrorLink(from(e.payload), e.next))
  }

  /** `From<P> for ErrorLink_<P>`: a bare payload becomes a one-link chain
      with a freshly captured backtrace; this is what lets `?` accept a bare
      payload where a chain is returned. */
  function FromPayload<P>(value: P, captured: Backtrace): (e: ErrorLink<P>)
    ensures e == ErrorLinks.New(value, captured)
    ensures e.payload == value && ErrorLinks.Length(e) == 1
    ensures ErrorLinks.TailBacktrace(e) == captured
  {
    ErrorLinks.ErrorLink(value, ErrorLinks.None(captured))
  }

  /** The `?` operator on a `Result` whose error is a bare payload, in a
      function that returns `Result<_, ErrorLink_<P>>`. */
  function Question<O, P>(r: Result<O, P>, captured: Backtrace): (m: Result<O, ErrorLink<P>>)
    ensures m.Ok? <==> r.Ok?
    ensures r.Ok? ==> m.value == r.value
    ensures r.Err? ==> m.error == FromPayload(r.error, captured)
    ensures r.Err? ==> m.error.payload == r.error && ErrorLinks.Length(m.error) == 1
    ensures r.Err? ==> ErrorLinks.TailBacktrace(m.error) == captured
  {
    MapErr(r, (p: P) => FromPayload(p, captured))
  }

  /** The bare-error `me_link` with a text payload is `ErrorLinkable::link`
      on the error. */
  lemma MeLinkValueIsLinkValue<O, E>(r: Result<O, E>, message: string, show: E -> string,
                                      captured: Backtrace)
    requires r.Err?
    ensures MeLinkValue(r, message, show, captured).error
         == ErrorLinks.LinkValue(r.error, message, show, captured)
  {
    var m := MeLinkValue(r, message, show, captured);
    var l := ErrorLinks.LinkValue(r.error, message, show, captured);
    assert m.error.next == l.next;
  }

  /** For every `Result`, the bare-error `me_link` is `me_as_slink` followed
      by the chain `me_link`: an `Ok` passes through both unchanged, and an
      error gives the same chain either way. */
  lemma MeLinkValueIsAsSlinkThenLink<O, E>(r: Result<O, E>, message: string, show: E -> string,
                                           captured: Backtrace)
    ensures MeLinkValue(r, message, show, captured)
         == MeLinkChain(MeAsSlinkValue(r, show, captured), message, s => s)
  {
    if r.Err? {
      var m := MeLinkValue(r, message, show, captured);
      var l := MeLinkChain(MeAsSlinkValue(r, show, captured), message, s => s);
      assert m.error.next == l.error.next;
    }
  }
}
