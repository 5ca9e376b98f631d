/**
 * The calculator's entry state machine: the display text and the globals
 * `calcOp`, `calcPrev` and `calcReset`. Digit entry, the decimal point and the
 * sign toggle are edits of the display text; the arithmetic of `calculate` and
 * `percentage` works on JavaScript numbers and is a parameter here.
 */
module Calculator {
  import opened Wrappers

  /** The four operator buttons: '÷', '×', '−', '+'. */
  datatype Operator = Divide | Times | Minus | Plus

  /** Digit entry: a display of exactly "0" is replaced, any other is extended. */
  function WithDigit(display: string, n: char): (r: string)
    ensures |r| > 0 && r[|r| - 1] == n
    ensures display == "0" ==> r == [n]
    ensures display != "0" ==> |r| == |display| + 1 && r[..|display|] == display
  {
    if display == "0" then [n] else display + [n]
  }

  /** Decimal entry: append '.' unless the display already has one. */
  function WithPoint(display: string): (r: string)
    ensures '.' in r
    ensures r == display || r == display + "."
    ensures multiset(r)['.'] == if '.' in display then multiset(display)['.'] else 1
  {
    if '.' in display then display
    else
      assert multiset(display)['.'] == 0;
      assert multiset(display + ".") == multiset(display) + multiset{'.'};
      display + "."
  }

  /** Sign toggle: "0" stays, a leading '-' is dropped, otherwise one is added. */
  function Negated(display: string): (r: string)
    ensures r == display <==> display == "0"
    ensures |r| == |display| + 1 || |r| + 1 == |display| || r == display
  {
    if display == "0" then display
    else if |display| > 0 && display[0] == '-' then display[1..]
    else "-" + display
  }

  /** The display after typing the digits `ds` one by one. */
  function Typed(display: string, ds: seq<char>): string
    decreases |ds|
  {
    if ds == [] then display else Typed(WithDigit(display, ds[0]), ds[1..])
  }

  /** `ds` without its leading zeros. */
  function DropZeros(ds: seq<char>): (r: seq<char>)
    decreases |ds|
  {
    if ds != [] && ds[0] == '0' then DropZeros(ds[1..]) else ds
  }

  /** On a display other than "0" typing only appends. */
  lemma {:induction false} TypedAppends(display: string, ds: seq<char>)
    requires |display| > 0 && display != "0"
    ensures Typed(display, ds) == display + ds
    decreases |ds|
  {
    if ds != [] {
      var d' := display + [ds[0]];
      assert |d'| >= 2;
      TypedAppends(d', ds[1..]);
      assert d' + ds[1..] == display + ds;
    }
  }

  /**
   * Typing after a clear shows the digits without their leading zeros,
   * or "0" when there are only zeros.
   */
  lemma {:induction false} TypedFromZero(ds: seq<char>)
    ensures Typed("0", ds) == if DropZeros(ds) == [] then "0" else DropZeros(ds)
    decreases |ds|
  {
    if ds != [] {
      if ds[0] == '0' {
        assert WithDigit("0", ds[0]) == "0";
        TypedFromZero(ds[1..]);
      } else {
        TypedAppends([ds[0]], ds[1..]);
        assert [ds[0]] + ds[1..] == ds;
      }
    }
  }

  /** Digit and decimal entry never bring the display to more than one '.'. */
  lemma EntryKeepsOnePoint(display: string, n: char)
    requires multiset(display)['.'] <= 1 && n != '.'
    ensures multiset(WithDigit(display, n))['.'] <= 1
    ensures multiset(WithPoint(display))['.'] <= 1
  {
    if display != "0" {
      assert multiset(display + [n]) == multiset(display) + multiset{n};
    }
  }

  /** The decimal key pressed twice is the decimal key pressed once. */
  lemma WithPointIdempotent(display: string)
    ensures WithPoint(WithPoint(display)) == WithPoint(display)
  {
  }

  /**
   * The sign toggle undoes itself exactly on displays that do not start with
   * "--" and are not "-0" (dropping the '-' of "-0" leaves the "0" that the
   * toggle never negates).
   */
  lemma NegatedTwice(display: string)
    ensures Negated(Negated(display)) == display <==>
      !(|display| >= 2 && display[0] == '-' && (display[1] == '-' || display == "-0"))
  {
    if |display| >= 2 && display[0] == '-' && display[1] == '-' {
      assert |Negated(Negated(display))| == |display| - 2;
    }
    if display == "-0" {
      assert Negated(display) == "0";
    }
    if |display| > 0 && display[0] != '-' && display != "0" {
      assert ("-" + display)[1..] == display;
    }
    if |display| > 0 && display[0] == '-' {
      assert "-" + display[1..] == display;
    }
  }

  /** The globals of the calculator and the text of `#calc-display`. */
  class Calculator {
    var display: string
    var op: Option<Operator>
    var prev: Option<string>
    var reset: bool

    /** `calcOp` and `calcPrev` are set together and cleared together. */
    ghost predicate Valid()
      reads this
    {
      op.Some? == prev.Some?
    }

    constructor ()
      ensures Valid() && display == "0" && op == None && prev == None && !reset
    {
      display, op, prev, reset := "0", None, None, false;
    }

    /** `initCalculator`: a new calculator window shows "0"; the globals carry over. */
    method Attach()
      modifies this
      ensures old(Valid()) ==> Valid()
      ensures display == "0" && op == old(op) && prev == old(prev) && reset == old(reset)
    {
      display := "0";
    }

    /** `inputCalcNumber(n)`. */
    method InputCalcNumber(n: char)
      modifies this
      ensures old(Valid()) ==> Valid()
      ensures display == WithDigit(if old(reset) then "0" else old(display), n)
      ensures !reset && op == old(op) && prev == old(prev)
    {
      if reset {
        display := "0";
        reset := false;
      }
      display := if display == "0" then [n] else display + [n];
    }

    /** `inputDecimal`. */
    method InputDecimal()
      modifies this
      ensures old(Valid()) ==> Valid()
      ensures display == WithPoint(if old(reset) then "0" else old(display))
      ensures !reset && op == old(op) && prev == old(prev)
    {
      if reset {
        display := "0";
        reset := false;
      }
      if '.' !in display {
        display := display + ".";
      }
    }

    /**
     * `calculate`, with `arith(op, a, b)` standing for the text of the JavaScript
     * result of `a op b` on the numbers the two texts parse to.
     */
    method Calculate(arith: (Operator, string, string) -> string)
      modifies this
      ensures old(Valid()) ==> Valid()
      ensures old(op) == None || old(prev) == None ==>
        display == old(display) && op == old(op) && prev == old(prev) && reset == old(reset)
      ensures old(op).Some? && old(prev).Some? ==>
        display == arith(old(op).value, old(prev).value, old(display)) && op == None && prev == None && reset
    {
      if op == None || prev == None {
        return;
      }
      display := arith(op.value, prev.value, display);
      op, prev := None, None;
      reset := true;
    }

    /** `setOperator(o)`: finish a pending operation unless a result is showing, then remember the display. */
    method SetOperator(o: Operator, arith: (Operator, string, string) -> string)
      requires Valid()
      modifies this
      ensures Valid() && op == Some(o) && reset
      ensures old(op).Some? && !old(reset) ==>
        display == arith(old(op).value, old(prev).value, old(display)) && prev == Some(display)
      ensures old(op) == None || old(reset) ==> display == old(display) && prev == Some(old(display))
    {
      if op.Some? && !reset {
        Calculate(arith);
      }
      prev := Some(display);
      op := Some(o);
      reset := true;
    }

    /** `clearCalc` (AC). */
    method ClearCalc()
      modifies this
      ensures Valid() && display == "0" && op == None && prev == None && !reset
    {
      display, op, prev, reset := "0", None, None, false;
    }

    /** `toggleSign` (±); it ignores `calcReset`. */
    method ToggleSign()
      modifies this
      ensures old(Valid()) ==> Valid()
      ensures display == Negated(old(display))
      ensures op == old(op) && prev == old(prev) && reset == old(reset)
    {
      if display != "0" {
        display := if |display| > 0 && display[0] == '-' then display[1..] else "-" + display;
      }
    }

    /** `percentage`, with `percent(t)` standing for the text of the number `t` parses to, divided by 100. */
    method Percentage(percent: string -> string)
      modifies this
      ensures old(Valid()) ==> Valid()
      ensures display == percent(old(display))
      ensures op == old(op) && prev == old(prev) && reset == old(reset)
    {
      display := percent(display);
    }
  }
}
