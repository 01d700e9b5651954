/** The experimental `EL` and `NL` (src/lib.rs): the chain of
    `ErrorLink_`, except that links behind the head hold any displayable
    value behind a `Box<dyn DisplayableAny>` instead of text. A boxed
    trait object is modelled by what can still be done with it without
    downcasting: display it. `Box<T>` is a datatype of its own, since the
    source tells `EL<T>` and `EL<Box<T>>` apart. Only the `RE` impl for a
    bare error is implemented in the source; only it is modelled. */
module ErasedLinks {
  import opened Wrappers
  import opened Formatting
  import ErrorLinks
  import LinkableResults

  /** A `Box<dyn DisplayableAny>`: the value, seen only through `Display`. */
  datatype DisplayableAny = DisplayableAny(text: string)

  /** A `Box<T>`. */
  datatype Box<T> = Box(inner: T)

  /** What follows a link: the end with its backtrace, or a type-erased link. */
  datatype NL = None(backtrace: Backtrace) | Some(link: EL<DisplayableAny>)

  datatype EL<Payload> = EL(payload: Payload, next: NL)

  /** `Box::new(e) as Box<dyn DisplayableAny>`. */
  function Erase<T>(value: T, show: T -> string): (d: DisplayableAny)
    ensures d.text == show(value)
  {
    DisplayableAny(show(value))
  }

  // ---------------------------------------------------------------------------
  // The chain seen from outside.

  /** The displayed texts of the links reached through `n`, nearest first. */
  function NextTexts(n: NL): seq<string>
  {
    match n
    case None(_) => []
    case Some(l) => [l.payload.text] + NextTexts(l.next)
  }

  function Texts<P>(e: EL<P>, show: P -> string): seq<string>
  {
    [show(e.payload)] + NextTexts(e.next)
  }

  function Length<P>(e: EL<P>): nat
  {
    1 + |NextTexts(e.next)|
  }

  function Terminal(n: NL): Backtrace
  {
    match n
    case None(bt) => bt
    case Some(l) => Terminal(l.next)
  }

  // ---------------------------------------------------------------------------
  // Constructors.

  /** `EL::new`: the argument converted by `Into<Payload>` (here `into`), one
      link, a fresh backtrace. */
  function New<Q, P>(linkPayload: Q, into: Q -> P, captured: Backtrace): (e: EL<P>)
    ensures e.payload == into(linkPayload)
    ensures Length(e) == 1 && Terminal(e.next) == captured
  {
    EL(into(linkPayload), NL.None(captured))
  }

  /** `From<T> for EL<T>`: the value as it is, one link, a fresh backtrace. */
  function FromValue<T>(value: T, captured: Backtrace): (e: EL<T>)
    ensures e == New(value, (v: T) => v, captured)
    ensures e.payload == value && Length(e) == 1 && Terminal(e.next) == captured
  {
    EL(value, NL.None(captured))
  }

  /** `From<T> for EL<Box<T>>`: the value boxed, one link, a fresh backtrace. */
  function FromBoxed<T>(value: T, captured: Backtrace): (e: EL<Box<T>>)
    ensures e == New(value, (v: T) => Box(v), captured)
    ensures e.payload.inner == value && Length(e) == 1 && Terminal(e.next) == captured
  {
    EL(Box(value), NL.None(captured))
  }

  // ---------------------------------------------------------------------------
  // `RE` on a `Result` whose error is a bare displayable value.

  /** `add_link`: exactly two links, the converted payload and then the
      erased error, ending in a fresh backtrace. */
  function AddLink<O, E, Q, P>(r: Result<O, E>, linkPayload: Q, into: Q -> P, show: E -> string,
                               captured: Backtrace): (m: Result<O, EL<P>>)
    ensures m.Ok? <==> r.Ok?
    ensures r.Ok? ==> m.value == r.value
    ensures r.Err? ==> m.error.payload == into(linkPayload)
    ensures r.Err? ==> NextTexts(m.error.next) == [show(r.error)]
    ensures r.Err? ==> Length(m.error) == 2 && Terminal(m.error.next) == captured
  {
    var m := MapErr(r, (e: E) =>
      var nextLink := EL(Erase(e, show), NL.None(captured));
      EL(into(linkPayload), NL.Some(nextLink)));
    assert r.Err? ==>
      NextTexts(m.error.next.link.next) == [] && Terminal(m.error.next.link.next) == captured;
    m
  }

  /** `as_anylink`: one link holding the erased error, a fresh backtrace. */
  function AsAnylink<O, E>(r: Result<O, E>, show: E -> string, captured: Backtrace)
    : (m: Result<O, EL<DisplayableAny>>)
    ensures m.Ok? <==> r.Ok?
    ensures r.Ok? ==> m.value == r.value
    ensures r.Err? ==> m.error == New(r.error, (e: E) => Erase(e, show), captured)
    ensures r.Err? ==> Texts(m.error, (d: DisplayableAny) => d.text) == [show(r.error)]
  {
    MapErr(r, (e: E) => EL(Erase(e, show), NL.None(captured)))
  }

  /** `convert_link`: one link holding the error converted by `From<E>`
      (here `from`), a fresh backtrace. */
  function ConvertLink<O, E, P>(r: Result<O, E>, from: E -> P, captured: Backtrace)
    : (m: Result<O, EL<P>>)
    ensures m.Ok? <==> r.Ok?
    ensures r.Ok? ==> m.value == r.value
    ensures r.Err? ==> m.error == New(r.error, from, captured)
    ensures r.Err? ==> m.error.payload == from(r.error) && Length(m.error) == 1
  {
    MapErr(r, (e: E) => EL(from(e), NL.None(captured)))
  }

  /** `as_anylink` is `convert_link` with erasure as the conversion. */
  lemma AsAnylinkIsConvertLink<O, E>(r: Result<O, E>, show: E -> string, captured: Backtrace)
    ensures AsAnylink(r, show, captured) == ConvertLink(r, (e: E) => Erase(e, show), captured)
  {
  }

  /** Seen through `Display`, `add_link` with a text payload builds the chain
      that `me_link` builds on a bare error with `ErrorLink_`: the same texts,
      the same length, the same backtrace. */
  lemma AddLinkAgreesWithMeLink<O, E>(r: Result<O, E>, message: string, show: E -> string,
                                      captured: Backtrace)
    requires r.Err?
    ensures var m := AddLink(r, message, (s: string) => s, show, captured);
      var l := LinkableResults.MeLinkValue(r, message, show, captured);
      Texts(m.error, s => s) == ErrorLinks.Texts(l.error, s => s)
      && Length(m.error) == ErrorLinks.Length(l.error)
      && Terminal(m.error.next) == ErrorLinks.TailBacktrace(l.error)
  {
  }
}
