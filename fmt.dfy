/** What the renderers need from `std`: the captured backtrace, the text sink
    (`std::fmt::Formatter`) that a write may fail on, decimal numbers, and the
    two line formats both `Display` implementations write. */
module Formatting {
  import Wrappers

  /** A captured `std::backtrace::Backtrace`. Capturing walks the stack, which
      is outside the model: a capture is a token with an identity, so that a
      reused backtrace can be told from a freshly captured one, and with the
      text it displays as. */
  datatype Backtrace = Backtrace(id: nat, text: string)

  /** `std::fmt::Error`: carries no information. */
  datatype FmtError = FmtError

  /** The text sink behind `std::fmt::Formatter`. It accepts a write as long
      as the text fits in its capacity; a write that does not fit fails and
      leaves the buffer as it was. */
  class Formatter {
    var buffer: string
    const capacity: nat

    ghost predicate Valid()
      reads this
    {
      |buffer| <= capacity
    }

    constructor (capacity: nat)
      ensures Valid() && buffer == [] && this.capacity == capacity
    {
      buffer := [];
      this.capacity := capacity;
    }

    /** `Formatter::write_str`. */
    method WriteStr(s: string) returns (r: Wrappers.Result<(), FmtError>)
      requires Valid()
      modifies this
      ensures Valid()
      ensures r.Ok? <==> |old(buffer)| + |s| <= capacity
      ensures buffer == if r.Ok? then old(buffer) + s else old(buffer)
    {
      if |buffer| + |s| <= capacity {
        buffer := buffer + s;
        r := Wrappers.Ok(());
      } else {
        r := Wrappers.Err(FmtError);
      }
    }
  }

  /** The text of a sequence of writes, one after the other. */
  function Concat(pieces: seq<string>): (s: string)
  {
    if pieces == [] then "" else pieces[0] + Concat(pieces[1..])
  }

  lemma {:induction false} ConcatAppend(pieces: seq<string>, last: string)
    ensures Concat(pieces + [last]) == Concat(pieces) + last
  {
    if pieces == [] {
      assert pieces + [last] == [last];
    } else {
      assert (pieces + [last])[1..] == pieces[1..] + [last];
      ConcatAppend(pieces[1..], last);
    }
  }

  /** A sink that held `before` and then took `pieces` holds one piece more
      after taking `last`. */
  lemma ConcatAppendAfter(before: string, pieces: seq<string>, last: string)
    ensures before + Concat(pieces + [last]) == (before + Concat(pieces)) + last
  {
    ConcatAppend(pieces, last);
    var c := Concat(pieces);
    assert before + (c + last) == (before + c) + last;
  }

  /** How many of `pieces`, written in order into a sink that already holds
      `used` characters, the sink accepts before the first write that fails. */
  function Fitting(used: nat, pieces: seq<string>, capacity: nat): (k: nat)
    ensures k <= |pieces|
    decreases pieces
  {
    if pieces == [] || used + |pieces[0]| > capacity then 0
    else 1 + Fitting(used + |pieces[0]|, pieces[1..], capacity)
  }

  /** The accepted writes fit, and the first refused one (if any) would not
      have. */
  lemma {:induction false} FittingMeaning(used: nat, pieces: seq<string>, capacity: nat)
    requires used <= capacity
    ensures used + |Concat(pieces[..Fitting(used, pieces, capacity)])| <= capacity
    ensures Fitting(used, pieces, capacity) < |pieces| ==>
      used + |Concat(pieces[..Fitting(used, pieces, capacity)])|
        + |pieces[Fitting(used, pieces, capacity)]| > capacity
    decreases pieces
  {
    var k := Fitting(used, pieces, capacity);
    if pieces == [] || used + |pieces[0]| > capacity {
      assert pieces[..k] == [];
    } else {
      var rest := pieces[1..];
      FittingMeaning(used + |pieces[0]|, rest, capacity);
      assert pieces[..k][1..] == rest[..k - 1];
      assert k < |pieces| ==> pieces[k] == rest[k - 1];
    }
  }

  /** One more write that the sink accepts. */
  lemma FittingAccepted(used: nat, piece: string, rest: seq<string>, capacity: nat)
    requires used + |piece| <= capacity
    ensures Fitting(used, [piece] + rest, capacity) == 1 + Fitting(used + |piece|, rest, capacity)
  {
    assert ([piece] + rest)[1..] == rest;
  }

  /** A write that the sink refuses: nothing from there on is accepted. */
  lemma FittingRefused(used: nat, piece: string, rest: seq<string>, capacity: nat)
    requires used + |piece| > capacity
    ensures Fitting(used, [piece] + rest, capacity) == 0
  {
  }

  /** Every write is accepted exactly when the whole text fits. */
  lemma {:induction false} FittingAll(used: nat, pieces: seq<string>, capacity: nat)
    requires used <= capacity
    ensures Fitting(used, pieces, capacity) == |pieces| <==> used + |Concat(pieces)| <= capacity
    decreases pieces
  {
    if pieces != [] && used + |pieces[0]| <= capacity {
      FittingAll(used + |pieces[0]|, pieces[1..], capacity);
    }
  }

  /** When the whole text fits, the sink takes every write. */
  lemma FittingWhole(used: nat, pieces: seq<string>, capacity: nat)
    requires used <= capacity
    ensures used + |Concat(pieces)| <= capacity ==>
      Fitting(used, pieces, capacity) == |pieces| && pieces[..Fitting(used, pieces, capacity)] == pieces
  {
    FittingAll(used, pieces, capacity);
    assert pieces[..|pieces|] == pieces;
  }

  /** Where a renderer's walk stands: `written` went to the sink, `rest` is
      still to come, and how much of the whole the sink will take is known. */
  ghost predicate Walked(all: seq<string>, written: seq<string>, rest: seq<string>,
                         start: nat, used: nat, capacity: nat)
  {
    && all == written + rest
    && Fitting(start, all, capacity) == |written| + Fitting(used, rest, capacity)
  }

  /** A write of a renderer's walk that the sink takes: the walk moves on. */
  lemma AfterAccepted(before: string, all: seq<string>, written: seq<string>, pending: seq<string>,
                      start: nat, capacity: nat, held: string)
    requires held == before + Concat(written)
    requires Walked(all, written, pending, start, |held|, capacity)
    requires pending != [] && |held| + |pending[0]| <= capacity
    ensures held + pending[0] == before + Concat(written + [pending[0]])
    ensures Walked(all, written + [pending[0]], pending[1..], start, |held + pending[0]|, capacity)
  {
    var piece, rest := pending[0], pending[1..];
    assert pending == [piece] + rest;
    FittingAccepted(|held|, piece, rest, capacity);
    ConcatAppendAfter(before, written, piece);
    assert written + ([piece] + rest) == (written + [piece]) + rest;
  }

  /** When nothing is pending any more, every write was taken. */
  lemma WalkedToEnd(before: string, all: seq<string>, written: seq<string>,
                    start: nat, capacity: nat, held: string)
    requires held == before + Concat(written)
    requires Walked(all, written, [], start, |held|, capacity)
    ensures Fitting(start, all, capacity) == |all|
    ensures held == before + Concat(all[..Fitting(start, all, capacity)])
  {
    assert all == written;
    assert all[..|all|] == all;
  }

  /** A write of a renderer's walk that the sink refuses: what the sink holds
      is final, and not every write was taken. */
  lemma AfterRefused(before: string, all: seq<string>, written: seq<string>, pending: seq<string>,
                     start: nat, capacity: nat, held: string)
    requires held == before + Concat(written)
    requires Walked(all, written, pending, start, |held|, capacity)
    requires pending != [] && |held| + |pending[0]| > capacity
    ensures Fitting(start, all, capacity) < |all|
    ensures held == before + Concat(all[..Fitting(start, all, capacity)])
  {
    var piece, rest := pending[0], pending[1..];
    assert pending == [piece] + rest;
    FittingRefused(|held|, piece, rest, capacity);
    assert all[..Fitting(start, all, capacity)] == written;
  }

  /** One `write!(f, ..)?` of a renderer's walk: the sink either takes the next
      piece due, and the walk moves on, or refuses it, and what it holds is
      final. */
  lemma AfterWrite(before: string, all: seq<string>, written: seq<string>, pending: seq<string>,
                   start: nat, capacity: nat, held: string, holds: string, accepted: bool)
    requires held == before + Concat(written)
    requires Walked(all, written, pending, start, |held|, capacity)
    requires pending != []
    requires accepted <==> |held| + |pending[0]| <= capacity
    requires holds == if accepted then held + pending[0] else held
    ensures accepted ==> holds == before + Concat(written + [pending[0]])
    ensures accepted ==> Walked(all, written + [pending[0]], pending[1..], start, |holds|, capacity)
    ensures !accepted || |pending| == 1 ==> holds == before + Concat(all[..Fitting(start, all, capacity)])
    ensures !accepted ==> Fitting(start, all, capacity) < |all|
    ensures accepted && |pending| == 1 ==> Fitting(start, all, capacity) == |all|
  {
    if accepted {
      AfterAccepted(before, all, written, pending, start, capacity, held);
      if |pending| == 1 {
        WalkedToEnd(before, all, written + [pending[0]], start, capacity, holds);
      }
    } else {
      AfterRefused(before, all, written, pending, start, capacity, held);
    }
  }

  function DigitChar(d: nat): (c: char)
    requires d < 10
    ensures '0' <= c <= '9'
  {
    "0123456789"[d]
  }

  /** `{}` of an unsigned number: its decimal digits, without leading zeros. */
  function DecimalString(n: nat): (s: string)
    ensures 1 <= |s|
    ensures forall i :: 0 <= i < |s| ==> '0' <= s[i] <= '9'
    ensures |s| > 1 ==> s[0] != '0'
  {
    if n < 10 then [DigitChar(n)] else DecimalString(n / 10) + [DigitChar(n % 10)]
  }

  /** Reading decimal digits back: the partner of `DecimalString`. */
  function DecimalValue(s: string): (n: nat)
    requires forall i :: 0 <= i < |s| ==> '0' <= s[i] <= '9'
  {
    if s == [] then 0 else 10 * DecimalValue(s[..|s| - 1]) + (s[|s| - 1] - '0') as nat
  }

  lemma DigitValue(d: nat)
    requires d < 10
    ensures (DigitChar(d) - '0') as nat == d
  {
    if d < 5 {
      assert d == 0 || d == 1 || d == 2 || d == 3 || d == 4;
    } else {
      assert d == 5 || d == 6 || d == 7 || d == 8 || d == 9;
    }
  }

  lemma {:induction false} DecimalRoundTrip(n: nat)
    ensures DecimalValue(DecimalString(n)) == n
  {
    var s := DecimalString(n);
    if n < 10 {
      DigitValue(n);
    } else {
      var q, d := n / 10, n % 10;
      DecimalRoundTrip(q);
      DigitValue(d);
      assert s == DecimalString(q) + [DigitChar(d)];
      assert s[..|s| - 1] == DecimalString(q);
      assert DecimalValue(s) == 10 * q + d;
    }
  }

  /** The line for link number `number` holding `text`. */
  function LinkLine(number: nat, text: string): string
  {
    "Link no. " + DecimalString(number) + ": " + text + "\n"
  }

  const BacktraceHeader: string := "Approximate backtrace of link no. "

  /** The closing block: the backtrace, labelled with the number of the last link. */
  function BacktraceLine(lastNumber: nat, backtrace: Backtrace): string
  {
    BacktraceHeader + DecimalString(lastNumber) + ":\n" + backtrace.text
  }

  /** A written piece that opens a backtrace block. */
  predicate IsBacktraceBlock(piece: string)
  {
    BacktraceHeader <= piece
  }

  lemma LinkLineIsNoBacktraceBlock(number: nat, text: string)
    ensures !IsBacktraceBlock(LinkLine(number, text))
  {
    assert LinkLine(number, text)[0] == 'L' != BacktraceHeader[0];
  }

  lemma BacktraceLineIsBacktraceBlock(lastNumber: nat, backtrace: Backtrace)
    ensures IsBacktraceBlock(BacktraceLine(lastNumber, backtrace))
  {
    var s := BacktraceLine(lastNumber, backtrace);
    assert s[..|BacktraceHeader|] == BacktraceHeader;
  }
}
