/** The scenarios of the test module of src/lib.rs, with the renderings they
    expect. Each scenario builds its chain with the modelled operations and
    the lemma states the whole rendered text: the line pair the test looks
    for, where it stands, and the single backtrace block that ends it. */
module Oracles {
  import opened Wrappers
  import opened Formatting
  import ErrorLinks
  import ErrorChains
  import LinkableResults
  import ResultExt

  // ---------------------------------------------------------------------------
  // The values the tests use, with their `Display`.

  /** `std::io::Error::other(message)`: displays as its message. */
  datatype IoError = Other(message: string)

  function ShowIo(e: IoError): string
  {
    e.message
  }

  /** The test enum `ErrorReasons`. */
  datatype ErrorReasons = One | Two | Three

  function ShowReason(r: ErrorReasons): (s: string)
    ensures s == "First reason for underlying error." <==> r == One
  {
    match r
    case One => "First reason for underlying error."
    case Two => "Second reason for underlying error."
    case Three => "Third reason for underlying error."
  }

  newtype i32 = n: int | -0x8000_0000 <= n < 0x8000_0000

  /** `{}` of an `i32`: a non-negative number is its decimal digits, with no
      leading zero, read back as the number; a negative one is a minus sign
      followed by the digits of its magnitude. */
  function ShowI32(n: i32): (s: string)
    ensures n >= 0 ==> 1 <= |s| && (forall i :: 0 <= i < |s| ==> '0' <= s[i] <= '9')
                       && DecimalValue(s) == n as int
    ensures n >= 0 && |s| > 1 ==> s[0] != '0'
    ensures n < 0 ==> 1 < |s| && s[0] == '-'
                      && (forall i :: 1 <= i < |s| ==> '0' <= s[i] <= '9')
                      && DecimalValue(s[1..]) == -(n as int)
    ensures n < 0 && |s| > 2 ==> s[1] != '0'
  {
    if n < 0 then
      var d := DecimalString(-(n as int));
      DecimalRoundTrip(-(n as int));
      assert ("-" + d)[1..] == d;
      "-" + d
    else
      DecimalRoundTrip(n as nat);
      DecimalString(n as nat)
  }

  /** The results the `ResultExt` tests start from. */
  type Outcome<E> = Result<(), E>

  const Higher: string := "Higher level error."
  const Underlying: string := "Underlying error."

  /** The text a test looks for when it expects link 0 to hold `first` and
      link 1 to hold `second`. */
  function TwoLines(first: string, second: string): string
  {
    "Link no. 0: " + first + "\n" + "Link no. 1: " + second
  }

  /** The text a test looks for when it expects link 0 to hold `first`. */
  function OneLine(first: string): string
  {
    "Link no. 0: " + first
  }

  /** The text the default-output tests look for. */
  const DefaultOutput: string := TwoLines(Higher, Underlying)

  /** A proof aid: the digits of link numbers 0 and 1. */
  lemma DigitStrings()
    ensures DecimalString(0) == "0" && DecimalString(1) == "1"
  {
  }

  /** `100` displays as the text the tests look for. */
  lemma Hundred()
    ensures ShowI32(100) == "100"
  {
    assert DecimalString(10) == DecimalString(1) + [DigitChar(0)];
    assert DecimalString(100) == DecimalString(10) + [DigitChar(0)];
  }

  /** Lines 0 and 1 as written are the searched text and a line break. */
  lemma TwoLinkLines(first: string, second: string)
    ensures LinkLine(0, first) + LinkLine(1, second) == TwoLines(first, second) + "\n"
  {
    DigitStrings();
  }

  /** Line 0 as written. */
  lemma FirstLinkLine(first: string)
    ensures LinkLine(0, first) == OneLine(first) + "\n"
  {
    DigitStrings();
  }

  /** A proof aid, not part of the model: three pieces written one after the
      other, with the middle two grouped. */
  lemma Regroup(opening: string, a: string, b: string, rest: string)
    ensures opening + a + b + rest == opening + (a + b) + rest
  {
  }

  /** An `ErrorLink_` whose links hold `first` and `second` renders as the
      opening line, the searched text with its line break, and the backtrace
      block of link 1. */
  lemma LinkRendersTwoLines(e: ErrorLinks.ErrorLink<string>, first: string, second: string)
    requires ErrorLinks.Texts(e, s => s) == [first, second]
    ensures ErrorLinks.Render(e, s => s)
         == ErrorLinks.Opening + (TwoLines(first, second) + "\n")
            + BacktraceLine(1, ErrorLinks.TailBacktrace(e))
  {
    ErrorLinks.RenderTwoLinks(e, s => s);
    TwoLinkLines(first, second);
    Regroup(ErrorLinks.Opening, LinkLine(0, first), LinkLine(1, second),
            BacktraceLine(1, ErrorLinks.TailBacktrace(e)));
  }

  /** A one-link `ErrorLink_` holding `first` renders as the opening line,
      line 0 and the backtrace block of link 0. */
  lemma LinkRendersOneLine(e: ErrorLinks.ErrorLink<string>, first: string)
    requires ErrorLinks.Texts(e, s => s) == [first]
    ensures ErrorLinks.Render(e, s => s)
         == ErrorLinks.Opening + (OneLine(first) + "\n") + BacktraceLine(0, ErrorLinks.TailBacktrace(e))
  {
    assert ErrorLinks.Texts(e, s => s)[0] == e.payload == first;
    assert ErrorLinks.Length(e) == 1;
    ErrorLinks.RenderOneLink(e, s => s);
    FirstLinkLine(first);
  }

  /** An `ErrorChain` whose links hold `first` and `second` renders as the
      searched text with its line break and the backtrace block of link 1. */
  lemma ChainRendersTwoLines(c: ErrorChains.ErrorChain<string>, first: string, second: string)
    requires ErrorChains.Texts(c, s => s) == [first, second]
    ensures ErrorChains.Render(c, s => s)
         == (TwoLines(first, second) + "\n") + BacktraceLine(1, ErrorChains.Terminal(c.link))
  {
    ErrorChains.RenderTwoLinks(c, s => s);
    TwoLinkLines(first, second);
  }

  // ---------------------------------------------------------------------------
  // The deprecated `ErrorChain`: no opening line.

  /** `test__chaining_non_error_chain`: `link_fn` on an `io::Error`, which
      `Into<ErrorChain<String>>` turns into a one-link chain. */
  lemma ChainingNonErrorChain(captured: Backtrace)
    ensures var c := ErrorChains.Link(Higher, Other(Underlying),
                                      (v: IoError) => ErrorChains.FromError(v, ShowIo, captured));
      ErrorChains.Render(c, s => s) == (DefaultOutput + "\n") + BacktraceLine(1, captured)
  {
    var c := ErrorChains.Link(Higher, Other(Underlying),
                              (v: IoError) => ErrorChains.FromError(v, ShowIo, captured));
    ChainRendersTwoLines(c, Higher, Underlying);
  }

  /** `test__chaining_error_chain`: `link_fn` on a chain made by `start`. */
  lemma ChainingErrorChain(captured: Backtrace)
    ensures var c := ErrorChains.Link(Higher, ErrorChains.Start(Underlying, captured),
                                      (c: ErrorChains.ErrorChain<string>) => c);
      ErrorChains.Render(c, s => s) == (DefaultOutput + "\n") + BacktraceLine(1, captured)
  {
    var c := ErrorChains.Link(Higher, ErrorChains.Start(Underlying, captured),
                              (c: ErrorChains.ErrorChain<string>) => c);
    ChainRendersTwoLines(c, Higher, Underlying);
  }

  /** `test__chaining_non_error_chain_and_non_error_trait`: `onboard_fn` on a
      `String`. */
  lemma ChainingOnboard(captured: Backtrace)
    ensures var c := ErrorChains.Onboard(Higher, Underlying, s => s, captured);
      ErrorChains.Render(c, s => s) == (DefaultOutput + "\n") + BacktraceLine(1, captured)
  {
    var c := ErrorChains.Onboard(Higher, Underlying, s => s, captured);
    ChainRendersTwoLines(c, Higher, Underlying);
  }

  // ---------------------------------------------------------------------------
  // `ErrorLink_`: the opening line first.

  /** `test__chaining_non_error_link_`: `as_link` on an `io::Error`, then
      `link`. */
  lemma ChainingNonErrorLink(captured: Backtrace)
    ensures var e := ErrorLinks.Link(ErrorLinks.AsLinkValue(Other(Underlying), ShowIo, captured),
                                     Higher, s => s);
      ErrorLinks.Render(e, s => s)
      == ErrorLinks.Opening + (DefaultOutput + "\n") + BacktraceLine(1, captured)
  {
    var e := ErrorLinks.Link(ErrorLinks.AsLinkValue(Other(Underlying), ShowIo, captured),
                             Higher, s => s);
    LinkRendersTwoLines(e, Higher, Underlying);
  }

  /** `test__chaining_error_link_`: `new_string`, `as_link` to the same
      payload type, then `link`. */
  lemma ChainingErrorLink(captured: Backtrace)
    ensures var e := ErrorLinks.Link(ErrorLinks.AsLink(ErrorLinks.NewString(Underlying, captured), s => s),
                                     Higher, s => s);
      ErrorLinks.Render(e, s => s)
      == ErrorLinks.Opening + (DefaultOutput + "\n") + BacktraceLine(1, captured)
  {
    var e := ErrorLinks.Link(ErrorLinks.AsLink(ErrorLinks.NewString(Underlying, captured), s => s),
                             Higher, s => s);
    LinkRendersTwoLines(e, Higher, Underlying);
  }

  /** `test__chaining_non_error_link_and_non_error_trait` and
      `test__resultext__chaining_non`: `ErrorLinkable::link` on a `String`. */
  lemma ChainingLinkValue(captured: Backtrace)
    ensures var e := ErrorLinks.LinkValue(Underlying, Higher, s => s, captured);
      ErrorLinks.Render(e, s => s)
      == ErrorLinks.Opening + (DefaultOutput + "\n") + BacktraceLine(1, captured)
  {
    var e := ErrorLinks.LinkValue(Underlying, Higher, s => s, captured);
    assert ErrorLinks.Texts(e, s => s) == [Higher, Underlying];
    LinkRendersTwoLines(e, Higher, Underlying);
  }

  /** `test__chaining_error_link__non_string_payload`, first case: `link` on
      a one-link chain holding `100`; the old head appears in link 1 as its
      displayed text. */
  lemma ChainingI32Payload(captured: Backtrace)
    ensures var e := ErrorLinks.Link(ErrorLinks.New(100 as i32, captured), Higher, ShowI32);
      ErrorLinks.Render(e, s => s)
      == ErrorLinks.Opening + (TwoLines(Higher, "100") + "\n") + BacktraceLine(1, captured)
  {
    var e := ErrorLinks.Link(ErrorLinks.New(100 as i32, captured), Higher, ShowI32);
    Hundred();
    assert ErrorLinks.Texts(e, s => s) == [Higher, "100"];
    LinkRendersTwoLines(e, Higher, "100");
  }

  /** `test__chaining_error_link__non_string_payload`, second case: the same
      with `ErrorReasons::One`. */
  lemma ChainingReasonPayload(captured: Backtrace)
    ensures var e := ErrorLinks.Link(ErrorLinks.New(One, captured), Higher, ShowReason);
      ErrorLinks.Render(e, s => s)
      == ErrorLinks.Opening + (TwoLines(Higher, "First reason for underlying error.") + "\n")
         + BacktraceLine(1, captured)
  {
    var e := ErrorLinks.Link(ErrorLinks.New(One, captured), Higher, ShowReason);
    assert ErrorLinks.Texts(e, s => s) == [Higher, "First reason for underlying error."];
    LinkRendersTwoLines(e, Higher, "First reason for underlying error.");
  }

  /** `test__chaining_error_link__non_string_payload`, last case: an unlinked
      `ErrorReasons::Two` keeps its payload and renders as link 0 alone. */
  lemma UnlinkedReason(captured: Backtrace)
    ensures ErrorLinks.New(Two, captured).payload == Two
    ensures ErrorLinks.Render(ErrorLinks.New(Two, captured), ShowReason)
         == ErrorLinks.Opening + (OneLine("Second reason for underlying error.") + "\n")
            + BacktraceLine(0, captured)
  {
    ErrorLinks.RenderOneLink(ErrorLinks.New(Two, captured), ShowReason);
    FirstLinkLine("Second reason for underlying error.");
  }

  // ---------------------------------------------------------------------------
  // `ResultExt`.

  /** `test__resultext__chaining_error_link__string_payload`: `me_al` then
      `me_l` on a chain made by `new_string`. */
  lemma ResultExtStringChain(captured: Backtrace)
    ensures var r := ResultExt.MeLStringChain(
              ResultExt.MeAlStringChain(Outcome.Err(ErrorLinks.NewString(Underlying, captured))), Higher);
      r.Err? && ErrorLinks.Render(r.error, s => s)
      == ErrorLinks.Opening + (DefaultOutput + "\n") + BacktraceLine(1, captured)
  {
    var r := ResultExt.MeLStringChain(
      ResultExt.MeAlStringChain(Outcome.Err(ErrorLinks.NewString(Underlying, captured))), Higher);
    LinkRendersTwoLines(r.error, Higher, Underlying);
  }

  /** `test__resultext__chaining_error_link__non_string_payload`,
      `test__resultext__chaining_non_error_link__string_payload` and
      `test__resultext__chaining_non_error_link__non_string_payload`: `me_al`
      gives one link holding the displayed error. */
  lemma ResultExtSingleLinks(captured: Backtrace)
    ensures var r := ResultExt.MeAlChain(Outcome.Err(ErrorLinks.New(100 as i32, captured)), ShowI32);
      r.Err? && ErrorLinks.Render(r.error, s => s)
      == ErrorLinks.Opening + (OneLine("100") + "\n") + BacktraceLine(0, captured)
    ensures var r := ResultExt.MeAlString(Outcome.Err(Underlying), captured);
      r.Err? && ErrorLinks.Render(r.error, s => s)
      == ErrorLinks.Opening + (OneLine(Underlying) + "\n") + BacktraceLine(0, captured)
    ensures var r := ResultExt.MeAl(Outcome.Err(100 as i32), ShowI32, captured);
      r.Err? && ErrorLinks.Render(r.error, s => s)
      == ErrorLinks.Opening + (OneLine("100") + "\n") + BacktraceLine(0, captured)
  {
    Hundred();
    var r1 := ResultExt.MeAlChain(Outcome.Err(ErrorLinks.New(100 as i32, captured)), ShowI32);
    LinkRendersOneLine(r1.error, "100");
    var r2 := ResultExt.MeAlString(Outcome.Err(Underlying), captured);
    LinkRendersOneLine(r2.error, Underlying);
    var r3 := ResultExt.MeAl(Outcome.Err(100 as i32), ShowI32, captured);
    LinkRendersOneLine(r3.error, "100");
  }

  // ---------------------------------------------------------------------------
  // The conversion tests: what `?` and the adapters produce.

  /** `test__link_conversion__to_error_link_non_string` and
      `test__adding_link__to_error_link_non_string`: `?` turns a bare `44`
      into a one-link chain; `me_link(100)` on a `new_string("")` chain puts
      `100` in front of the empty text. */
  lemma ConversionsNonString(captured: Backtrace)
    ensures LinkableResults.Question(Outcome.Err(44 as i32), captured) == Err(ErrorLinks.New(44 as i32, captured))
    ensures var r := LinkableResults.MeLinkChain(Outcome.Err(ErrorLinks.NewString("", captured)), 100 as i32, s => s);
      r.Err? && r.error.payload == 100 && ErrorLinks.TailTexts(r.error) == [""]
      && ErrorLinks.TailBacktrace(r.error) == captured
  {
  }

  /** `test__replacing_payload__to_error_link_string`: `replace` swaps the
      head's payload and keeps the backtrace of the replaced chain. */
  lemma ReplacingPayload(captured: Backtrace)
    ensures var e := ErrorLinks.Replace(ErrorLinks.New(Other("Something ugly."), captured),
                                        "Get replaced. But keep its linkage.");
      ErrorLinks.Render(e, s => s)
      == ErrorLinks.Opening + (OneLine("Get replaced. But keep its linkage.") + "\n")
         + BacktraceLine(0, captured)
  {
    var e := ErrorLinks.Replace(ErrorLinks.New(Other("Something ugly."), captured),
                                "Get replaced. But keep its linkage.");
    LinkRendersOneLine(e, "Get replaced. But keep its linkage.");
  }
}
