# micro_errors in Dafny

A model of the Rust library `micro_errors`, which builds error chains. An
error is a chain of links. The head link holds a payload of any displayable
type. Every link behind it holds only the text of what it replaced. The chain
ends in the backtrace that was captured when the chain began. Displaying a
chain writes an opening line, then one numbered line per link, then that one
backtrace.

The project has eight files:

- `wrappers.dfy` (module `Wrappers`): Rust's `Option` and `Result`, and
  `map_err`, which every adapter is built from.
- `fmt.dfy` (module `Formatting`): what the renderers need from `std`.
  - the captured backtrace;
  - `std::fmt::Formatter`, as a class whose buffer a write either extends or
    leaves alone;
  - decimal numbers, with their round trip;
  - the two line formats;
  - the bookkeeping that ties a renderer's loop to the list of writes it makes.
- `error_link.dfy` (module `ErrorLinks`): `ErrorLink_`, `NextLink` and
  `ErrorLinkable`, including `Display::fmt` and `Error::source`.
  - `Display::fmt` is an imperative method over the `Formatter` object. Its
    loop follows the chain with a cursor and a counter.
  - It is specified by the list of writes `Pieces`, whose shape is proved
    separately.
- `linkable_results.dfy` (module `LinkableResults`): `LinkableResult1of2`,
  `LinkableResult2of2` and `From<P> for ErrorLink_<P>`.
- `result_ext.dfy` (module `ResultExt`): the nightly-only `ResultExt` trait.
- `error_chain.dfy` (module `ErrorChains`): the deprecated `ErrorChain` and
  `ErrorLink`, with their own `Display::fmt`. It writes no opening line.
- `erased_links.dfy` (module `ErasedLinks`): the experimental `EL`/`NL` chain
  and its `RE` adapters for a bare error. The links behind the head hold
  type-erased displayable values.
- `oracles.dfy` (module `Oracles`): the scenarios of the test module in
  `src/lib.rs`. Each one is built with the modelled operations. For the
  scenarios that display a chain, the full rendered text is proved; the
  conversion scenarios state the values the conversions produce.

Things outside the model are parameters:

- Capturing a backtrace is a `captured: Backtrace` argument. A backtrace is a
  token with an identity, so the model can tell "reused" from "captured anew".
- `Display`/`to_string` is a caller-supplied function `show`.
- `From`/`Into` is a caller-supplied function `from`/`into`.
- Rust picks a trait implementation by the error type at compile time. Each
  implementation here is a function of its own:
  - `...Value`: the error is a bare value (in `ResultExt`, the plain names
    `MeL` and `MeAl` are the bare-error implementations);
  - `...Chain`: the error is already a chain;
  - `...String`: the error is a `String`.

## Model

| member | source | states |
|---|---|---|
| Formatting.Formatter.WriteStr | src/error_link_.rs:78-79 | a `write!` into the formatter either fits and appends exactly its text, or fails with `fmt::Error` and leaves the buffer unchanged |
| Formatting.FittingAll | src/error_link_.rs:76-98 | a sequence of `write!(..)?` calls all succeed exactly when the whole text fits in the sink |
| Formatting.FittingMeaning | src/error_link_.rs:76-98 | the writes a sink accepts before the first `?` error fit, and the first refused write would not have fit |
| Formatting.AfterWrite | src/error_link_.rs:78-95 | one `write!(..)?` step: if accepted, the sink holds the writes so far and the walk moves on; if refused, the sink's content is final and not every write was taken |
| Formatting.DecimalString | src/error_link_.rs:79-91 | a link number is displayed as a non-empty string of decimal digits with no leading zero |
| Formatting.DecimalRoundTrip | src/error_link_.rs:79-91 | reading the displayed digits of a link number back gives that number |
| Formatting.LinkLineIsNoBacktraceBlock | src/error_link_.rs:91 | a link line never begins with the backtrace header |
| Formatting.BacktraceLineIsBacktraceBlock | src/error_link_.rs:84-87 | the closing block begins with "Approximate backtrace of link no. " |
| ErrorLinks.New | src/error_link_.rs:15-17 | `new` makes a one-link chain: the payload as given, nothing behind it, ending in the freshly captured backtrace |
| ErrorLinks.NewString | src/error_link_.rs:42-44 | `new_string` is `new` at payload type `String`; its only text is the message |
| ErrorLinks.Replace | src/error_link_.rs:19-23 | `replace` swaps the head payload and keeps the continuation, so the length, the texts behind the head and the backtrace are unchanged |
| ErrorLinks.Link | src/error_link_.rs:25-34 | `link` (through `link_fn`) adds exactly one link: the new payload in front, then every old link's text in order with the old head turned into text, and the same backtrace |
| ErrorLinks.AsLink | src/error_link_.rs:36-38 | `as_link` converts only the head payload by `From` and keeps the continuation, length and backtrace |
| ErrorLinks.LinkValue | src/error_link_.rs:53-66 | `ErrorLinkable::link` on a bare value gives exactly two links, the message and the value's text, ending in a freshly captured backtrace |
| ErrorLinks.AsLinkValue | src/error_link_.rs:68-73 | `ErrorLinkable::as_link` on a bare value gives one link holding its text, ending in a freshly captured backtrace |
| ErrorLinks.TwoLinkShape | src/error_link_.rs:58-66 | the "message then the error's text" chain that the bare-value adapters build has two links, with the captured backtrace at the end |
| ErrorLinks.LinkValueIsAsLinkThenLink | src/error_link_.rs:53-73 | linking a bare value equals `as_link` followed by the chain's `link` |
| ErrorLinks.Source | src/error_link_.rs:101-107 | `source` is absent exactly at a one-link chain; otherwise it is the rest of the chain, one link shorter, with the same texts and backtrace |
| ErrorLinks.NextPiecesShape | src/error_link_.rs:81-95 | walking the links from number `n` writes "Link no. n+i: text" for the i-th link, then one backtrace block numbered with the last link |
| ErrorLinks.PiecesShape | src/error_link_.rs:76-98 | `fmt` writes the opening line, one line per link numbered from 0 with that link's text, then the chain's own backtrace under the number of the last link |
| ErrorLinks.ExactlyOneBacktraceBlock | src/error_link_.rs:83-89 | among the writes of `fmt`, exactly one is a backtrace block, and it is the last write |
| ErrorLinks.RenderOneLink | src/error_link_.rs:76-98 | a one-link chain renders as the opening line, link 0 and the backtrace block of link 0 |
| ErrorLinks.RenderTwoLinks | src/error_link_.rs:76-98 | a two-link chain renders as the opening line, lines 0 and 1, and the backtrace block of link 1 |
| ErrorLinks.Fmt | src/error_link_.rs:76-98 | `fmt` leaves in the formatter exactly the writes the sink accepted, in order. It returns `Ok` exactly when every write was accepted. When the whole rendering fits, it succeeds and appends the whole rendering |
| LinkableResults.MeLinkValue | src/linkable_results.rs:14-23 | `me_link` on a bare error: `Ok` passes through; an error becomes two links, the payload and then the error's text, with a fresh backtrace |
| LinkableResults.MeAsSlinkValue | src/linkable_results.rs:25-30 | `me_as_slink` on a bare error: `Ok` passes through; an error becomes one link holding its text, with a fresh backtrace |
| LinkableResults.MeLinkChain | src/linkable_results.rs:35-41 | `me_link` on a chain is `link` under `map_err`: one link more, the texts behind the head are the old chain's texts, the backtrace is kept |
| LinkableResults.MeAsSlinkChain | src/linkable_results.rs:43-45 | `me_as_slink` on a chain turns the head into text and keeps everything behind it |
| LinkableResults.MeAsLink | src/linkable_results.rs:55-58 | `me_as_link` is `as_link` under `map_err`: the head converted by `From`, the rest kept |
| LinkableResults.FromPayload | src/linkable_results.rs:61-65 | `From<P> for ErrorLink_<P>` is `new`: one link holding the value, with a fresh backtrace |
| LinkableResults.Question | src/linkable_results.rs:61-65 | `?` on a bare payload error, in a function returning a chain, yields exactly `From<P>` of that payload: a one-link chain holding it and ending in the freshly captured backtrace; `Ok` passes through |
| LinkableResults.MeLinkValueIsLinkValue | src/linkable_results.rs:14-23 | on an error, the bare-error `me_link` builds the same chain as `ErrorLinkable::link` on that error |
| LinkableResults.MeLinkValueIsAsSlinkThenLink | src/linkable_results.rs:14-45 | for every `Result`, `Ok` or not, the bare-error `me_link` equals `me_as_slink` followed by the chain `me_link` |
| ResultExt.MeL | src/result_ext.rs:15-24 | `me_l` on a bare error: exactly the message and the error's text, with a fresh backtrace; `Ok` passes through; the same result as `me_link` of `LinkableResult1of2` |
| ResultExt.MeAl | src/result_ext.rs:26-31 | `me_al` on a bare error: one link holding its text, with a fresh backtrace; `Ok` passes through; the same result as `me_as_slink` |
| ResultExt.MeLString | src/result_ext.rs:37-45 | on a `String` error, `me_l` gives what the bare-error `me_l` gives with the identity as `Display` |
| ResultExt.MeAlString | src/result_ext.rs:47-52 | on a `String` error, `me_al` gives what the bare-error `me_al` gives with the identity as `Display` |
| ResultExt.MeLChain | src/result_ext.rs:58-67 | `me_l` on a chain: the message in front of all the old texts, one link longer, the backtrace kept; the same result as the chain `me_link` |
| ResultExt.MeAlChain | src/result_ext.rs:69-71 | `me_al` on a chain: the same texts, the head turned into text, the continuation kept; the same result as the chain `me_as_slink` |
| ResultExt.MeLStringChain | src/result_ext.rs:77-83 | `me_l` on a text chain puts the whole unchanged chain behind the message, which is the chain `me_l` with the identity as `Display` |
| ResultExt.MeAlStringChain | src/result_ext.rs:85-87 | `me_al` on a text chain returns its input, which is the chain `me_al` with the identity as `Display` |
| ErrorChains.NewSevered | src/error_chain.rs:13-15 | `severed` ends a chain, with no messages and the freshly captured backtrace |
| ErrorChains.NewContinued | src/error_chain.rs:17-22 | `continued` puts one message in front of the given link and keeps its messages and backtrace |
| ErrorChains.FromError | src/error_chain.rs:31-35 | `From<T: Error> for ErrorChain<String>`: one link holding the error's text, with a fresh backtrace |
| ErrorChains.Start | src/error_chain.rs:39-41 | `start`: one link holding the message, with a fresh backtrace |
| ErrorChains.Add | src/error_chain.rs:43-54 | `add` (through `add_fn`): the message in front of all the old texts, one link longer, the backtrace reused |
| ErrorChains.Onboard | src/error_chain.rs:56-67 | `onboard` (through `onboard_fn`): exactly the message and the value's text, with a fresh backtrace |
| ErrorChains.Link | src/error_chain.rs:69-81 | `link` (through `link_fn`): the message in front of the texts of the converted chain, whose backtrace is kept |
| ErrorChains.LinkOfChainIsAdd | src/error_chain.rs:43-81 | on an existing `ErrorChain<String>`, `link` is `add` and adds exactly one link |
| ErrorChains.LinkOfErrorIsOnboard | src/error_chain.rs:31-81 | on a `std::error::Error`, `link` through `From` is `onboard` |
| ErrorChains.LinkPiecesShape | src/error_chain.rs:89-103 | walking the links from number `n` writes "Link no. n+i: message" for each `Continued`, then one backtrace block numbered with the last link |
| ErrorChains.PiecesShape | src/error_chain.rs:85-107 | `fmt` writes one line per link numbered from 0, with no opening line, then the chain's backtrace under the number of the last link |
| ErrorChains.ExactlyOneBacktraceBlock | src/error_chain.rs:91-97 | among the writes of `fmt`, exactly one is a backtrace block, and it is the last write |
| ErrorChains.RenderTwoLinks | src/error_chain.rs:85-107 | a two-link chain renders as lines 0 and 1 and the backtrace block of link 1 |
| ErrorChains.Fmt | src/error_chain.rs:85-107 | `fmt` leaves in the formatter exactly the writes the sink accepted, in order. It returns `Ok` exactly when every write was accepted. When the whole rendering fits, it succeeds and appends the whole rendering |
| ErasedLinks.Erase | src/lib.rs:455 | boxing a value as `Box<dyn DisplayableAny>` keeps what it displays as |
| ErasedLinks.New | src/lib.rs:427-431 | `EL::new` gives one link holding the payload converted by `Into`, with a fresh backtrace |
| ErasedLinks.FromValue | src/lib.rs:433-437 | `From<T> for EL<T>` is `EL::new` with the identity conversion |
| ErasedLinks.FromBoxed | src/lib.rs:439-443 | `From<T> for EL<Box<T>>` is `EL::new` with boxing as the conversion |
| ErasedLinks.AddLink | src/lib.rs:452-460 | `add_link` on a bare error: `Ok` passes through; an error becomes exactly two links, the converted payload and then the erased error, with a fresh backtrace |
| ErasedLinks.AsAnylink | src/lib.rs:462-464 | `as_anylink` on a bare error is `EL::new` of the erased error; `Ok` passes through |
| ErasedLinks.ConvertLink | src/lib.rs:466-468 | `convert_link` on a bare error is `EL::new` of the error converted by `From`; `Ok` passes through |
| ErasedLinks.AsAnylinkIsConvertLink | src/lib.rs:462-468 | `as_anylink` is `convert_link` with erasure as the conversion |
| ErasedLinks.AddLinkAgreesWithMeLink | src/lib.rs:452-460 | through `Display`, `add_link` with a text payload builds the chain that `me_link` builds: the same texts, length and backtrace |
| Oracles.ShowReason | src/lib.rs:142-151 | the test enum displays "First reason for underlying error." exactly for `One` |
| Oracles.ShowI32 | src/lib.rs:157-168 | an `i32` displays as decimal digits with no leading zero that read back as the number; a negative one displays as a minus sign and the digits of its magnitude |
| Oracles.Hundred | src/lib.rs:157-164 | `100` displays as "100" |
| Oracles.TwoLinkLines | src/lib.rs:52-61 | lines 0 and 1 as written contain the text the default-output check searches for, followed by a line break |
| Oracles.FirstLinkLine | src/lib.rs:185-191 | line 0 as written is "Link no. 0: " and the text, followed by a line break |
| Oracles.LinkRendersTwoLines | src/lib.rs:52-61 | an `ErrorLink_` holding two given texts renders as the opening line, the searched text with its line break, and the backtrace block of link 1 |
| Oracles.LinkRendersOneLine | src/lib.rs:185-198 | a one-link `ErrorLink_` renders as the opening line, line 0 and the backtrace block of link 0 |
| Oracles.ChainRendersTwoLines | src/lib.rs:52-61 | an `ErrorChain` holding two given texts renders as the searched text with its line break, then the backtrace block of link 1 |
| Oracles.ChainingNonErrorChain | src/lib.rs:75-84 | `link_fn` on an `io::Error` renders the default output followed by the single backtrace block |
| Oracles.ChainingNonErrorLink | src/lib.rs:87-97 | `as_link` and then `link` on an `io::Error` render the opening line, the default output and the single backtrace block |
| Oracles.ChainingErrorChain | src/lib.rs:102-112 | `link_fn` on `start` renders the default output followed by the single backtrace block |
| Oracles.ChainingErrorLink | src/lib.rs:115-123 | `new_string`, then `as_link`, then `link` render the opening line, the default output and the single backtrace block |
| Oracles.ChainingI32Payload | src/lib.rs:157-169 | linking a chain that holds `100` renders "Link no. 0: Higher level error.", then "Link no. 1: 100", then one backtrace block |
| Oracles.ChainingReasonPayload | src/lib.rs:171-183 | linking a chain that holds `ErrorReasons::One` renders its display text as link 1 |
| Oracles.UnlinkedReason | src/lib.rs:185-198 | an unlinked `ErrorReasons::Two` keeps its payload and renders as link 0 alone with one backtrace block |
| Oracles.ChainingOnboard | src/lib.rs:205-214 | `onboard_fn` on a `String` renders the default output followed by the single backtrace block |
| Oracles.ChainingLinkValue | src/lib.rs:218-240 | `ErrorLinkable::link` on a `String` renders the opening line, the default output and the single backtrace block |
| Oracles.ResultExtStringChain | src/lib.rs:245-255 | `me_al` and then `me_l` on a `new_string` chain render the opening line, the default output and the single backtrace block |
| Oracles.ResultExtSingleLinks | src/lib.rs:260-318 | `me_al` on a chain holding `100`, on a `String` and on a bare `100` each render one line holding the displayed error, then one backtrace block |
| Oracles.ConversionsNonString | src/lib.rs:383-400 | `?` turns a bare `44` into the one-link chain `new(44)`; `me_link(100)` on `new_string("")` puts `100` in front of the empty text and keeps the backtrace |
| Oracles.ReplacingPayload | src/lib.rs:371-379 | `replace` on a chain renders the new payload as link 0 with the backtrace of the replaced chain |

## Left out

- A `fmt::Error` raised by the sink is modelled as one cause only: a write that would overflow the `Formatter`'s fixed capacity. Nothing is lost by this. Every write `fmt` makes is non-empty, so for any write there is a capacity at which it is the first one refused.
- Capturing a backtrace (`Backtrace::capture`) walks the stack. It is the `captured` parameter, and a backtrace displays as its stored text.
- `Display`, `to_string`, `From` and `Into` are caller-supplied total functions. An `impl Into<Payload>` argument is passed already converted, except where the source converts inside the operation (`EL::new`, `RE::add_link`, `ErrorChain::link`).
- Ownership, moves and `Box` indirection are not modelled: chains are values. `Box<dyn DisplayableAny>` keeps only what the value displays as, and downcasting through `Any` is not modelled.
- ErrorLinks.Fmt: one `write!` is one atomic write to the sink. Rust's formatting machinery may hand the sink several pieces per `write!`, so when a write fails partway the real sink may hold a prefix of that piece, which the model does not.
- ErrorLinks.Fmt: link numbers are unbounded naturals. The source's counter `1..` is an `i32` and would overflow past 2^31 − 1 links.
- ErrorChains.Fmt: the same two limits as `ErrorLinks.Fmt`.
- Oracles.ChainingNonErrorChain: the tests count occurrences of the searched text and of the backtrace header in the final string. A backtrace's own text could contain either, so the count over the final string does not follow for every backtrace. The model proves where the searched text stands, and states "one backtrace" per write (`ExactlyOneBacktraceBlock`). The same holds for every `Oracles` rendering lemma.
- The `RE` impls for `EL<E>` and `EL<Box<E>>` errors, and `Reason`'s `Display`/`From`, are `todo!()` in the source (src/lib.rs:471-497, src/lib.rs:514-530). `contract` and `expand` only exercise types at compile time.
- The trait-dispatch demo test (`X`/`B`, src/lib.rs:31-50) checks Rust's method resolution, not the library.
- The conversion tests at src/lib.rs:335-367 and src/lib.rs:404-412 check only that the types line up for `?`. What the adapters they call produce is stated by `MeAsSlinkValue`, `MeAsLink`, `MeLinkChain`, `Replace` and `New`.
- The `ErrorLink_` `std::error::Error` impl requires `Debug`. `Debug` output and the `#[deprecated]` markers are not modelled.
