/** The deprecated `ErrorChain` and `ErrorLink` (src/error_chain.rs): the same
    chain idea as `ErrorLink_`, older. The head of an `ErrorChain<T>` holds a
    displayable value; behind it an `ErrorLink` is either `Continued` with a
    message and the next link, or `Severed`, holding the backtrace. */
module ErrorChains {
  import opened Wrappers
  import opened Formatting

  datatype ErrorLink = Severed(backtrace: Backtrace) | Continued(message: string, next: ErrorLink)

  datatype ErrorChain<T> = ErrorChain(head: T, link: ErrorLink)

  // ---------------------------------------------------------------------------
  // The chain seen from outside.

  /** The messages of the `Continued` links, nearest first. */
  function Messages(l: ErrorLink): seq<string>
  {
    match l
    case Severed(_) => []
    case Continued(message, next) => [message] + Messages(next)
  }

  /** The backtrace held by the `Severed` link that ends `l`. */
  function Terminal(l: ErrorLink): Backtrace
  {
    match l
    case Severed(bt) => bt
    case Continued(_, next) => Terminal(next)
  }

  /** Every link's text, head first. */
  function Texts<T>(c: ErrorChain<T>, show: T -> string): seq<string>
  {
    [show(c.head)] + Messages(c.link)
  }

  function Length<T>(c: ErrorChain<T>): nat
  {
    1 + |Messages(c.link)|
  }

  // ---------------------------------------------------------------------------
  // Construction.

  /** `ErrorLink::severed`: the end of a chain, with a freshly captured backtrace. */
  function NewSevered(captured: Backtrace): (l: ErrorLink)
    ensures Messages(l) == [] && Terminal(l) == captured
  {
    Severed(captured)
  }

  /** `ErrorLink::continued`: a message in front of the given link, which is
      kept as it is. */
  function NewContinued(message: string, next: ErrorLink): (l: ErrorLink)
    ensures Messages(l) == [message] + Messages(next)
    ensures Terminal(l) == Terminal(next)
  {
    Continued(message, next)
  }

  /** `From<T: std::error::Error> for ErrorChain<String>`: the error's text as
      the only link, with a freshly captured backtrace. */
  function FromError<T>(value: T, show: T -> string, captured: Backtrace): (c: ErrorChain<string>)
    ensures Texts(c, s => s) == [show(value)]
    ensures Terminal(c.link) == captured
  {
    ErrorChain(show(value), NewSevered(captured))
  }

  /** `ErrorChain::start`: a one-link chain holding the message. */
  function Start(message: string, captured: Backtrace): (c: ErrorChain<string>)
    ensures Texts(c, s => s) == [message]
    ensures Terminal(c.link) == captured
  {
    ErrorChain(message, NewSevered(captured))
  }

  /** `ErrorChain::add_fn`. */
  function AddFn<T>(message: string, show: T -> string): ErrorChain<T> -> ErrorChain<string>
  {
    (current: ErrorChain<T>) => ErrorChain(message, NewContinued(show(current.head), current.link))
  }

  /** `ErrorChain::add`: the message in front, the old head as text behind it,
      the backtrace reused. */
  function Add<T>(message: string, current: ErrorChain<T>, show: T -> string): (c: ErrorChain<string>)
    ensures Texts(c, s => s) == [message] + Texts(current, show)
    ensures Length(c) == Length(current) + 1
    ensures Terminal(c.link) == Terminal(current.link)
  {
    AddFn(message, show)(current)
  }

  /** `ErrorChain::onboard_fn`. */
  function OnboardFn<T>(message: string, show: T -> string, captured: Backtrace): T -> ErrorChain<string>
  {
    (underlying: T) => ErrorChain(message, NewContinued(show(underlying), Severed(captured)))
  }

  /** `ErrorChain::onboard`: a bare value gets exactly two links, the message
      and the value's text, with a freshly captured backtrace. */
  function Onboard<T>(message: string, value: T, show: T -> string, captured: Backtrace)
    : (c: ErrorChain<string>)
    ensures Texts(c, s => s) == [message, show(value)]
    ensures Terminal(c.link) == captured
  {
    var c := OnboardFn(message, show, captured)(value);
    assert Messages(c.link.next) == [] && Terminal(c.link.next) == captured;
    c
  }

  /** `ErrorChain::link_fn`: the argument is first converted by
      `Into<ErrorChain<String>>`, here the function `into`. */
  function LinkFn<T>(message: string, into: T -> ErrorChain<string>): T -> ErrorChain<string>
  {
    (current: T) =>
      var chain := into(current);
      ErrorChain(message, NewContinued(chain.head, chain.link))
  }

  /** `ErrorChain::link`: the message in front of the converted chain, whose
      head and links are kept as they are. */
  function Link<T>(message: string, current: T, into: T -> ErrorChain<string>): (c: ErrorChain<string>)
    ensures Texts(c, s => s) == [message] + Texts(into(current), s => s)
    ensures Terminal(c.link) == Terminal(into(current).link)
  {
    LinkFn(message, into)(current)
  }

  /** On an existing chain (`Into` is the identity) `link` is `add`. */
  lemma LinkOfChainIsAdd(message: string, current: ErrorChain<string>)
    ensures Link(message, current, (c: ErrorChain<string>) => c) == Add(message, current, s => s)
    ensures Length(Link(message, current, (c: ErrorChain<string>) => c)) == Length(current) + 1
  {
  }

  /** On a `std::error::Error` (`Into` is `From<T: Error>`) `link` is
      `onboard`: two links, the backtrace captured by the conversion. */
  lemma LinkOfErrorIsOnboard<T>(message: string, value: T, show: T -> string, captured: Backtrace)
    ensures Link(message, value, (v: T) => FromError(v, show, captured))
         == Onboard(message, value, show, captured)
  {
  }

  // ---------------------------------------------------------------------------
  // `Display::fmt`.

  /** The writes `fmt` makes for `l`, its first link numbered `number`. */
  function LinkPieces(l: ErrorLink, number: nat): seq<string>
    requires number >= 1
  {
    match l
    case Severed(bt) => [BacktraceLine(number - 1, bt)]
    case Continued(message, next) => [LinkLine(number, message)] + LinkPieces(next, number + 1)
  }

  /** Every write `fmt` makes for `c`, in order. */
  function Pieces<T>(c: ErrorChain<T>, show: T -> string): seq<string>
  {
    [LinkLine(0, show(c.head))] + LinkPieces(c.link, 1)
  }

  function Render<T>(c: ErrorChain<T>, show: T -> string): string
  {
    Concat(Pieces(c, show))
  }

  lemma {:induction false} LinkPiecesLength(l: ErrorLink, number: nat)
    requires number >= 1
    ensures |LinkPieces(l, number)| == |Messages(l)| + 1
  {
    match l
    case Severed(_) =>
    case Continued(_, next) =>
      LinkPiecesLength(next, number + 1);
  }

  /** The write for the `i`-th `Continued` link of `l`. */
  lemma {:induction false} LinkPieceAt(l: ErrorLink, number: nat, i: nat)
    requires number >= 1 && i < |Messages(l)|
    ensures |LinkPieces(l, number)| > i
    ensures LinkPieces(l, number)[i] == LinkLine(number + i, Messages(l)[i])
  {
    LinkPiecesLength(l, number);
    match l
    case Continued(_, next) =>
      if i > 0 {
        LinkPieceAt(next, number + 1, i - 1);
      }
  }

  /** The last write: the backtrace block. */
  lemma {:induction false} LinkPieceLast(l: ErrorLink, number: nat)
    requires number >= 1
    ensures |LinkPieces(l, number)| == |Messages(l)| + 1
    ensures LinkPieces(l, number)[|Messages(l)|]
         == BacktraceLine(number + |Messages(l)| - 1, Terminal(l))
  {
    LinkPiecesLength(l, number);
    match l
    case Severed(_) =>
    case Continued(_, next) =>
      LinkPieceLast(next, number + 1);
  }

  lemma {:induction false} LinkPiecesShape(l: ErrorLink, number: nat)
    requires number >= 1
    ensures |LinkPieces(l, number)| == |Messages(l)| + 1
    ensures forall i :: 0 <= i < |Messages(l)| ==>
      LinkPieces(l, number)[i] == LinkLine(number + i, Messages(l)[i])
    ensures LinkPieces(l, number)[|Messages(l)|]
         == BacktraceLine(number + |Messages(l)| - 1, Terminal(l))
  {
    LinkPieceLast(l, number);
    forall i | 0 <= i < |Messages(l)|
      ensures LinkPieces(l, number)[i] == LinkLine(number + i, Messages(l)[i])
    {
      LinkPieceAt(l, number, i);
    }
  }

  /** The rendering, write by write: one line per link numbered from 0, then
      a single backtrace block numbered with the last link. */
  lemma PiecesShape<T>(c: ErrorChain<T>, show: T -> string)
    ensures |Pieces(c, show)| == Length(c) + 1
    ensures forall i :: 0 <= i < Length(c) ==>
      Pieces(c, show)[i] == LinkLine(i, Texts(c, show)[i])
    ensures Pieces(c, show)[Length(c)] == BacktraceLine(Length(c) - 1, Terminal(c.link))
  {
    LinkPiecesShape(c.link, 1);
  }

  /** Exactly one backtrace block is written, and it is the last write. */
  lemma ExactlyOneBacktraceBlock<T>(c: ErrorChain<T>, show: T -> string)
    ensures forall i :: 0 <= i < |Pieces(c, show)| ==>
      (IsBacktraceBlock(Pieces(c, show)[i]) <==> i == |Pieces(c, show)| - 1)
  {
    var ps := Pieces(c, show);
    PiecesShape(c, show);
    forall i | 0 <= i < |ps|
      ensures IsBacktraceBlock(ps[i]) <==> i == |ps| - 1
    {
      if i < |ps| - 1 {
        LinkLineIsNoBacktraceBlock(i, Texts(c, show)[i]);
      } else {
        BacktraceLineIsBacktraceBlock(Length(c) - 1, Terminal(c.link));
      }
    }
  }

  /** A two-link chain renders as its two numbered lines and the backtrace
      of link 1. */
  lemma RenderTwoLinks<T>(c: ErrorChain<T>, show: T -> string)
    requires Length(c) == 2
    ensures Render(c, show)
         == LinkLine(0, Texts(c, show)[0]) + LinkLine(1, Texts(c, show)[1])
            + BacktraceLine(1, Terminal(c.link))
  {
    var ps := Pieces(c, show);
    var ts := Texts(c, show);
    PiecesShape(c, show);
    assert ps == [LinkLine(0, ts[0]), LinkLine(1, ts[1]), BacktraceLine(1, Terminal(c.link))];
    assert Concat(ps[2..]) == BacktraceLine(1, Terminal(c.link)) + Concat([]);
    assert Concat(ps[1..]) == LinkLine(1, ts[1]) + Concat(ps[2..]);
  }

  /** `Display::fmt`: writes link 0, then walks the links with a cursor and a
      counter, one line per `Continued`, until `Severed`, whose backtrace
      block it writes before stopping. The first write the sink refuses ends
      the walk with that error. */
  method Fmt<T>(c: ErrorChain<T>, show: T -> string, f: Formatter) returns (r: Result<(), FmtError>)
    requires f.Valid()
    modifies f
    ensures f.Valid()
    ensures var ps := Pieces(c, show);
      f.buffer == old(f.buffer) + Concat(ps[..Fitting(|old(f.buffer)|, ps, f.capacity)])
    ensures r.Ok? <==> Fitting(|old(f.buffer)|, Pieces(c, show), f.capacity) == |Pieces(c, show)|
    ensures |old(f.buffer)| + |Render(c, show)| <= f.capacity ==>
      r.Ok? && f.buffer == old(f.buffer) + Render(c, show)
  {
    ghost var before := f.buffer;
    ghost var all := Pieces(c, show);
    ghost var start := |f.buffer|;
    ghost var written: seq<string> := [];
    ghost var held := f.buffer;
    FittingWhole(start, all, f.capacity);

    r := f.WriteStr(LinkLine(0, show(c.head)));
    AfterWrite(before, all, written, all, start, f.capacity, held, f.buffer, r.Ok?);
    if r.Err? {
      return;
    }
    written, held := written + [LinkLine(0, show(c.head))], f.buffer;

    var errorLink := c.link;
    var errorNumber: nat := 1;
    while true
      invariant errorNumber >= 1
      invariant f.Valid() && held == f.buffer
      invariant held == before + Concat(written)
      invariant Walked(all, written, LinkPieces(errorLink, errorNumber), start, |held|, f.capacity)
      decreases |Messages(errorLink)|
    {
      match errorLink
      case Severed(endBacktrace) =>
        r := f.WriteStr(BacktraceLine(errorNumber - 1, endBacktrace));
        AfterWrite(before, all, written, LinkPieces(errorLink, errorNumber), start, f.capacity,
                   held, f.buffer, r.Ok?);
        if r.Err? {
          return;
        }
        break;
      case Continued(errorMessage, nextLink) =>
        var line := LinkLine(errorNumber, errorMessage);
        r := f.WriteStr(line);
        AfterWrite(before, all, written, LinkPieces(errorLink, errorNumber), start, f.capacity,
                   held, f.buffer, r.Ok?);
        if r.Err? {
          return;
        }
        written, held := written + [line], f.buffer;
        errorLink := nextLink;
        errorNumber := errorNumber + 1;
    }
    r := Ok(());
  }
}
