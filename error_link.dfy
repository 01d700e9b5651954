/** `ErrorLink_` and `NextLink` (src/error_link_.rs): a chain of error links.
    The head link holds a payload of any displayable type; every link behind
    it holds text; the last link ends in `NextLink::None`, the one place a
    backtrace is kept.

    Displaying a value (`to_string`, `{}`) is the function `show` the caller
    supplies for the payload type; `From`/`Into` conversions likewise. A
    backtrace capture is the `captured` argument. */
module ErrorLinks {
  import Wrappers
  import opened Formatting

  /** What follows a link: either the end of the chain with the backtrace
      captured where the chain started, or the next link, whose payload has
      already been turned into text. */
  datatype NextLink = None(backtrace: Backtrace) | Some(link: ErrorLink<string>)

  datatype ErrorLink<Payload> = ErrorLink(payload: Payload, next: NextLink)

  // ---------------------------------------------------------------------------
  // The chain seen from outside: its texts, its length, its backtrace.

  /** The texts of the links reached through `n`, nearest first. */
  function NextTexts(n: NextLink): seq<string>
  {
    match n
    case None(_) => []
    case Some(l) => [l.payload] + NextTexts(l.next)
  }

  /** The texts of the links behind the head. */
  function TailTexts<P>(e: ErrorLink<P>): seq<string>
  {
    NextTexts(e.next)
  }

  /** Every link's text, head first. */
  function Texts<P>(e: ErrorLink<P>, show: P -> string): seq<string>
  {
    [show(e.payload)] + TailTexts(e)
  }

  /** The number of links in the chain. */
  function Length<P>(e: ErrorLink<P>): nat
  {
    1 + |TailTexts(e)|
  }

  /** The backtrace held by the `NextLink::None` that ends `n`. */
  function Terminal(n: NextLink): Backtrace
  {
    match n
    case None(bt) => bt
    case Some(l) => Terminal(l.next)
  }

  function TailBacktrace<P>(e: ErrorLink<P>): Backtrace
  {
    Terminal(e.next)
  }

  // ---------------------------------------------------------------------------
  // Constructors.

  /** `ErrorLink_::new`: a one-link chain ending in a fresh backtrace. */
  function New<P>(payload: P, captured: Backtrace): (e: ErrorLink<P>)
    ensures e.payload == payload
    ensures Length(e) == 1 && TailTexts(e) == []
    ensures TailBacktrace(e) == captured
  {
    ErrorLink(payload, None(captured))
  }

  /** `ErrorLink_::<String>::new_string`: `new` at the payload type `String`. */
  function NewString(message: string, captured: Backtrace): (e: ErrorLink<string>)
    ensures e == New(message, captured)
    ensures Texts(e, s => s) == [message] && TailBacktrace(e) == captured
  {
    ErrorLink(message, None(captured))
  }

  // ---------------------------------------------------------------------------
  // Operations on a chain.

  /** `replace`: a new head payload in front of the same continuation. */
  function Replace<P, Q>(e: ErrorLink<P>, payload: Q): (r: ErrorLink<Q>)
    ensures r.payload == payload
    ensures r.next == e.next
    ensures Length(r) == Length(e) && TailTexts(r) == TailTexts(e)
    ensures TailBacktrace(r) == TailBacktrace(e)
  {
    ErrorLink(payload, e.next)
  }

  /** `link_fn`: the closure that puts `payload` in front of a chain. The old
      head becomes text; its continuation is moved, not recaptured. */
  function LinkFn<P, Q>(payload: Q, show: P -> string): ErrorLink<P> -> ErrorLink<Q>
  {
    (underlying: ErrorLink<P>) =>
      var nextLink := ErrorLink(show(underlying.payload), underlying.next);
      ErrorLink(payload, Some(nextLink))
  }

  /** `link`: one link more. Behind the new head stand all the old links, the
      old head now as its text, and the chain still ends in its own backtrace. */
  function Link<P, Q>(e: ErrorLink<P>, payload: Q, show: P -> string): (r: ErrorLink<Q>)
    ensures r.payload == payload
    ensures TailTexts(r) == Texts(e, show)
    ensures Length(r) == Length(e) + 1
    ensures TailBacktrace(r) == TailBacktrace(e)
  {
    LinkFn(payload, show)(e)
  }

  /** `as_link`: the head payload converted by `From`, nothing else touched. */
  function AsLink<P, Q>(e: ErrorLink<P>, from: P -> Q): (r: ErrorLink<Q>)
    ensures r.payload == from(e.payload)
    ensures r.next == e.next
    ensures Length(r) == Length(e) && TailBacktrace(r) == TailBacktrace(e)
  {
    ErrorLink(from(e.payload), e.next)
  }

  // ---------------------------------------------------------------------------
  // `ErrorLinkable` for a bare displayable value: it has no backtrace yet, so
  // one is captured here.

  /** `ErrorLinkable::link_fn` for a bare value. */
  function LinkValueFn<T>(message: string, show: T -> string, captured: Backtrace): T -> ErrorLink<string>
  {
    (underlying: T) =>
      var nextLink := ErrorLink(show(underlying), None(captured));
      ErrorLink(message, Some(nextLink))
  }

  /** `ErrorLinkable::link` for a bare value: exactly two links, the message
      and then the value's text, ending in the freshly captured backtrace. */
  function LinkValue<T>(value: T, message: string, show: T -> string, captured: Backtrace): (r: ErrorLink<string>)
    ensures Texts(r, s => s) == [message, show(value)]
    ensures Length(r) == 2
    ensures TailBacktrace(r) == captured
  {
    TwoLinkShape(message, show(value), captured);
    LinkValueFn(message, show, captured)(value)
  }

  /** `ErrorLinkable::as_link` for a bare value: one link, the value's text,
      ending in the freshly captured backtrace. */
  function AsLinkValue<T>(value: T, show: T -> string, captured: Backtrace): (r: ErrorLink<string>)
    ensures Texts(r, s => s) == [show(value)]
    ensures Length(r) == 1
    ensures TailBacktrace(r) == captured
  {
    ErrorLink(show(value), None(captured))
  }

  /** The shape every "bare error plus message" operation builds: the
      message, the error's text, and the backtrace captured for them. */
  lemma TwoLinkShape<Q>(payload: Q, text: string, captured: Backtrace)
    ensures var e := ErrorLink(payload, Some(ErrorLink(text, None(captured))));
      TailTexts(e) == [text] && Length(e) == 2 && TailBacktrace(e) == captured
  {
    var e := ErrorLink(payload, Some(ErrorLink(text, None(captured))));
    assert NextTexts(e.next.link.next) == [];
    assert Terminal(e.next.link.next) == captured;
  }

  /** Linking a bare value is the same as first making it a one-link chain
      and then linking that chain: the two entry points differ only in where
      the backtrace comes from. */
  lemma LinkValueIsAsLinkThenLink<T>(value: T, message: string, show: T -> string, captured: Backtrace)
    ensures LinkValue(value, message, show, captured)
         == Link(AsLinkValue(value, show, captured), message, s => s)
  {
  }

  // ---------------------------------------------------------------------------
  // `std::error::Error::source`.

  /** `source`: nothing at the end of the chain, otherwise the next link,
      which is the rest of the chain. */
  function Source<P>(e: ErrorLink<P>): (r: Wrappers.Option<ErrorLink<string>>)
    ensures r.None? <==> e.next.None?
    ensures r.Some? ==> Texts(r.value, s => s) == TailTexts(e)
    ensures r.Some? ==> Length(r.value) == Length(e) - 1
    ensures r.Some? ==> TailBacktrace(r.value) == TailBacktrace(e)
  {
    match e.next
    case None(_) => Wrappers.None
    case Some(l) => Wrappers.Some(l)
  }

  // ---------------------------------------------------------------------------
  // `Display::fmt`.

  const Opening: string := "An error occurred.\n"

  /** The writes `fmt` makes for the links reached through `n`, the first of
      them numbered `number`, and the closing backtrace block. */
  function NextPieces(n: NextLink, number: nat): seq<string>
    requires number >= 1
  {
    match n
    case None(bt) => [BacktraceLine(number - 1, bt)]
    case Some(l) => [LinkLine(number, l.payload)] + NextPieces(l.next, number + 1)
  }

  /** Every write `fmt` makes for `e`, in order. */
  function Pieces<P>(e: ErrorLink<P>, show: P -> string): seq<string>
  {
    [Opening, LinkLine(0, show(e.payload))] + NextPieces(e.next, 1)
  }

  /** The complete rendering of `e`. */
  function Render<P>(e: ErrorLink<P>, show: P -> string): string
  {
    Concat(Pieces(e, show))
  }

  lemma {:induction false} NextPiecesLength(n: NextLink, number: nat)
    requires number >= 1
    ensures |NextPieces(n, number)| == |NextTexts(n)| + 1
  {
    match n
    case None(_) =>
    case Some(l) =>
      NextPiecesLength(l.next, number + 1);
  }

  /** The write for the `i`-th link reached through `n`. */
  lemma {:induction false} NextPieceAt(n: NextLink, number: nat, i: nat)
    requires number >= 1 && i < |NextTexts(n)|
    ensures |NextPieces(n, number)| > i
    ensures NextPieces(n, number)[i] == LinkLine(number + i, NextTexts(n)[i])
  {
    NextPiecesLength(n, number);
    match n
    case Some(l) =>
      if i > 0 {
        NextPieceAt(l.next, number + 1, i - 1);
      }
  }

  /** The last write: the backtrace block. */
  lemma {:induction false} NextPieceLast(n: NextLink, number: nat)
    requires number >= 1
    ensures |NextPieces(n, number)| == |NextTexts(n)| + 1
    ensures NextPieces(n, number)[|NextTexts(n)|]
         == BacktraceLine(number + |NextTexts(n)| - 1, Terminal(n))
  {
    NextPiecesLength(n, number);
    match n
    case None(_) =>
    case Some(l) =>
      NextPieceLast(l.next, number + 1);
  }

  lemma {:induction false} NextPiecesShape(n: NextLink, number: nat)
    requires number >= 1
    ensures |NextPieces(n, number)| == |NextTexts(n)| + 1
    ensures forall i :: 0 <= i < |NextTexts(n)| ==>
      NextPieces(n, number)[i] == LinkLine(number + i, NextTexts(n)[i])
    ensures NextPieces(n, number)[|NextTexts(n)|]
         == BacktraceLine(number + |NextTexts(n)| - 1, Terminal(n))
  {
    NextPieceLast(n, number);
    forall i | 0 <= i < |NextTexts(n)|
      ensures NextPieces(n, number)[i] == LinkLine(number + i, NextTexts(n)[i])
    {
      NextPieceAt(n, number, i);
    }
  }

  /** The rendering, write by write: the opening line, then one line per link
      numbered from 0 with that link's text, then a single backtrace block
      numbered with the last link and holding the chain's own backtrace. */
  lemma PiecesShape<P>(e: ErrorLink<P>, show: P -> string)
    ensures |Pieces(e, show)| == Length(e) + 2
    ensures Pieces(e, show)[0] == Opening
    ensures forall i :: 0 <= i < Length(e) ==>
      Pieces(e, show)[i + 1] == LinkLine(i, Texts(e, show)[i])
    ensures Pieces(e, show)[Length(e) + 1]
         == BacktraceLine(Length(e) - 1, TailBacktrace(e))
  {
    NextPiecesShape(e.next, 1);
  }

  /** Exactly one backtrace block is written, and it is the last write. */
  lemma ExactlyOneBacktraceBlock<P>(e: ErrorLink<P>, show: P -> string)
    ensures forall i :: 0 <= i < |Pieces(e, show)| ==>
      (IsBacktraceBlock(Pieces(e, show)[i]) <==> i == |Pieces(e, show)| - 1)
  {
    var ps := Pieces(e, show);
    PiecesShape(e, show);
    forall i | 0 <= i < |ps|
      ensures IsBacktraceBlock(ps[i]) <==> i == |ps| - 1
    {
      if i == 0 {
        assert ps[0][1] == 'n' != BacktraceHeader[1];
      } else if i < |ps| - 1 {
        LinkLineIsNoBacktraceBlock(i - 1, Texts(e, show)[i - 1]);
      } else {
        BacktraceLineIsBacktraceBlock(Length(e) - 1, TailBacktrace(e));
      }
    }
  }

  /** A one-link chain renders as the opening line, link 0 and the backtrace
      of link 0. */
  lemma RenderOneLink<P>(e: ErrorLink<P>, show: P -> string)
    requires Length(e) == 1
    ensures Render(e, show)
         == Opening + LinkLine(0, show(e.payload)) + BacktraceLine(0, TailBacktrace(e))
  {
    var ps := Pieces(e, show);
    PiecesShape(e, show);
    assert ps == [Opening, LinkLine(0, show(e.payload)), BacktraceLine(0, TailBacktrace(e))];
    assert Concat(ps[2..]) == BacktraceLine(0, TailBacktrace(e)) + Concat([]);
    assert Concat(ps[1..]) == LinkLine(0, show(e.payload)) + Concat(ps[2..]);
  }

  /** A two-link chain renders as the opening line, its two numbered lines
      and the backtrace of link 1. */
  lemma RenderTwoLinks<P>(e: ErrorLink<P>, show: P -> string)
    requires Length(e) == 2
    ensures Render(e, show)
         == Opening + LinkLine(0, Texts(e, show)[0]) + LinkLine(1, Texts(e, show)[1])
            + BacktraceLine(1, TailBacktrace(e))
  {
    var ps := Pieces(e, show);
    var ts := Texts(e, show);
    PiecesShape(e, show);
    assert ps == [Opening, LinkLine(0, ts[0]), LinkLine(1, ts[1]), BacktraceLine(1, TailBacktrace(e))];
    assert Concat(ps[3..]) == BacktraceLine(1, TailBacktrace(e)) + Concat([]);
    assert Concat(ps[2..]) == LinkLine(1, ts[1]) + Concat(ps[3..]);
    assert Concat(ps[1..]) == LinkLine(0, ts[0]) + Concat(ps[2..]);
  }

  /** `Display::fmt`: writes the opening line and link 0, then walks the chain
      with a cursor and a counter, writing one line per link, until it reaches
      the backtrace, writes its block and stops. The first write the sink
      refuses ends the walk with that error. */
  method Fmt<P>(e: ErrorLink<P>, show: P -> string, f: Formatter) returns (r: Wrappers.Result<(), FmtError>)
    requires f.Valid()
    modifies f
    ensures f.Valid()
    ensures var ps := Pieces(e, show);
      f.buffer == old(f.buffer) + Concat(ps[..Fitting(|old(f.buffer)|, ps, f.capacity)])
    ensures r.Ok? <==> Fitting(|old(f.buffer)|, Pieces(e, show), f.capacity) == |Pieces(e, show)|
    ensures |old(f.buffer)| + |Render(e, show)| <= f.capacity ==>
      r.Ok? && f.buffer == old(f.buffer) + Render(e, show)
  {
    ghost var before := f.buffer;
    ghost var all := Pieces(e, show);
    ghost var start := |f.buffer|;
    ghost var written: seq<string> := [];
    ghost var held := f.buffer;
    FittingWhole(start, all, f.capacity);
    var head := LinkLine(0, show(e.payload));

    r := f.WriteStr(Opening);
    AfterWrite(before, all, written, all, start, f.capacity, held, f.buffer, r.Ok?);
    if r.Err? {
      return;
    }
    written, held := written + [Opening], f.buffer;

    r := f.WriteStr(head);
    AfterWrite(before, all, written, all[1..], start, f.capacity, held, f.buffer, r.Ok?);
    if r.Err? {
      return;
    }
    written, held := written + [head], f.buffer;

    var nextLink := e.next;
    var errorNumber: nat := 1;
    while true
      invariant errorNumber >= 1
      invariant f.Valid() && held == f.buffer
      invariant held == before + Concat(written)
      invariant Walked(all, written, NextPieces(nextLink, errorNumber), start, |held|, f.capacity)
      decreases |NextTexts(nextLink)|
    {
      match nextLink
      case None(endBacktrace) =>
        var block := BacktraceLine(errorNumber - 1, endBacktrace);
        r := f.WriteStr(block);
        AfterWrite(before, all, written, NextPieces(nextLink, errorNumber), start, f.capacity,
                   held, f.buffer, r.Ok?);
        if r.Err? {
          return;
        }
        break;
      case Some(errorLink) =>
        var line := LinkLine(errorNumber, errorLink.payload);
        r := f.WriteStr(line);
        AfterWrite(before, all, written, NextPieces(nextLink, errorNumber), start, f.capacity,
                   held, f.buffer, r.Ok?);
        if r.Err? {
          return;
        }
        written, held := written + [line], f.buffer;
        nextLink := errorLink.next;
        errorNumber := errorNumber + 1;
    }
    r := Wrappers.Ok(());
  }
}
