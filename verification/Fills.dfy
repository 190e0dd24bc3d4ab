/** The arithmetic of the four fill branches: truncation, drift, and who pays for it. */
module Fills {
  import opened Orders
  import opened Settlement

  /** What an order trades in the first token, and the amount of the second it stands for. */
  function Base(o: ChainOrder): nat { if o.side == Sell then o.input else o.output }

  function Quote(o: ChainOrder): nat { if o.side == Sell then o.output else o.input }

  // ---------- products and truncating quotients ----------

  lemma MulMono(a: nat, b: nat, c: nat)
    requires a <= b
    ensures a * c <= b * c && c * a <= c * b
  {
  }

  lemma MulStrict(a: nat, b: nat, c: nat)
    requires a < b && c > 0
    ensures a * c < b * c
  {
  }

  /** The truncated quotient is the largest whole number whose product does not exceed the dividend. */
  lemma NonNegative(x: int, y: int)
    requires x >= 0 && y >= 0
    ensures x * y >= 0
  {
  }

  lemma Quotient(n: nat, d: nat)
    requires d > 0
    ensures (n / d) * d <= n < (n / d) * d + d
  {
  }

  lemma QuotientAtMost(n: nat, d: nat, k: nat)
    requires d > 0 && n <= k * d
    ensures n / d <= k
  {
    Quotient(n, d);
    if n / d > k {
      MulMono(k + 1, n / d, d);
    }
  }

  lemma QuotientAtLeast(n: nat, d: nat, k: nat)
    requires d > 0 && k * d <= n
    ensures k <= n / d
  {
    Quotient(n, d);
    if n / d < k {
      MulMono(n / d + 1, k, d);
    }
  }

  // ---------- one fill ----------

  /** Scaling down by a fill of `fill` out of `base` rounds what remains of `quote` up. */
  lemma ShrinkRoundsUp(quote: nat, base: nat, fill: nat)
    requires base > 0 && fill <= base
    ensures var rest := quote - RuleOfThree(quote, base, fill);
            && 0 <= rest <= quote
            && quote * (base - fill) <= rest * base < quote * (base - fill) + base
            && (fill == base ==> rest == 0)
  {
    var cut := quote * fill / base;
    Quotient(quote * fill, base);
    MulMono(fill, base, quote);
    QuotientAtMost(quote * fill, base, quote);
    assert quote * (base - fill) == quote * base - quote * fill;
    assert (quote - cut) * base == quote * base - cut * base;
    if fill == base {
      QuotientAtLeast(quote * base, base, quote);
    }
  }

  /** A leg fails only when it would divide by zero: taker and maker have both nothing left to trade.
      No subtraction of the four branches goes below zero. */
  lemma FillFailsIffEmpty(taker: ChainOrder, maker: ChainOrder)
    ensures Fill(taker, maker) == None
            <==> if taker.side == Sell then taker.input == 0 && maker.output == 0
                else taker.output == 0 && maker.input == 0
  {
    if taker.side == Sell {
      if taker.input >= maker.output {
        if taker.input > 0 { ShrinkRoundsUp(taker.output, taker.input, maker.output); }
      } else {
        ShrinkRoundsUp(maker.input, maker.output, taker.input);
      }
    } else {
      if taker.output >= maker.input {
        if taker.output > 0 { ShrinkRoundsUp(taker.input, taker.output, maker.input); }
      } else {
        ShrinkRoundsUp(maker.output, maker.input, taker.output);
      }
    }
  }

  /** `after` is `before` with `fill` of its base traded. */
  ghost predicate Shrunk(before: ChainOrder, after: ChainOrder, fill: nat) {
    && 0 < Base(before) && fill <= Base(before)
    && Base(after) == Base(before) - fill
    && Quote(after) == Quote(before) - RuleOfThree(Quote(before), Base(before), fill)
    && after == before.(input := after.input, output := after.output)
  }

  /** Between opposite orders, the smaller base is traded in full; the other order, and only it, shrinks. */
  lemma FillShrinksOne(taker: ChainOrder, maker: ChainOrder)
    requires taker.side != maker.side && Fill(taker, maker).Some?
    ensures var leg := Fill(taker, maker).value;
            && (leg.writesTaker <==> Base(taker) >= Base(maker))
            && (leg.writesTaker ==> leg.maker == maker && Shrunk(taker, leg.taker, Base(maker)))
            && (!leg.writesTaker ==> leg.taker == taker && Shrunk(maker, leg.maker, Base(taker)))
  {
  }

  lemma NothingOfNothing(quote: nat, base: nat)
    ensures base > 0 ==> RuleOfThree(quote, base, 0) == 0
  {
  }

  // ---------- many fills ----------

  /** An order that began at (Q, B) and has been filled `fills` times: its limit ratio has never fallen,
      and has risen by less than one unit of quote per fill. */
  ghost predicate WithinDrift(o: ChainOrder, Q: nat, B: nat, fills: nat) {
    && Base(o) <= B
    && Q * Base(o) <= Quote(o) * B
    && (fills == 0 ==> Quote(o) == Q && Base(o) == B)
    && (fills > 0 ==> Quote(o) * B < Q * Base(o) + fills * B && (Base(o) == 0 ==> Quote(o) == 0))
  }

  lemma DriftStep(o: ChainOrder, after: ChainOrder, fill: nat, Q: nat, B: nat, fills: nat)
    requires WithinDrift(o, Q, B, fills) && Shrunk(o, after, fill)
    ensures WithinDrift(after, Q, B, fills + 1)
  {
    var q, b, q', b' := Quote(o), Base(o), Quote(after), Base(after);
    ShrinkRoundsUp(q, b, fill);
    // Q * b' <= q' * B, through Q * b <= q * B and q * b' <= q' * b
    DriftLower(q, b, q', b', Q, B);
    // q' * B < Q * b' + (fills + 1) * B
    DriftUpper(q, b, q', b', Q, B, fills);
  }

  lemma Cancelled(x: nat, y: nat, b: nat)
    requires b > 0 && x * b <= y * b
    ensures x <= y
  {
    if x > y { MulStrict(y, x, b); }
  }

  lemma CancelledStrict(x: nat, y: nat, b: nat)
    requires b > 0 && x * b < y * b
    ensures x < y
  {
    if x >= y { MulMono(y, x, b); }
  }

  lemma DriftLower(q: nat, b: nat, q': nat, b': nat, Q: nat, B: nat)
    requires b > 0 && Q * b <= q * B && q * b' <= q' * b
    ensures Q * b' <= q' * B
  {
    MulMono(Q * b, q * B, b');
    MulMono(q * b', q' * b, B);
    assert (Q * b') * b == (Q * b) * b';
    assert (q * B) * b' == (q * b') * B;
    assert (q' * b) * B == (q' * B) * b;
    Cancelled(Q * b', q' * B, b);
  }

  lemma DriftUpper(q: nat, b: nat, q': nat, b': nat, Q: nat, B: nat, fills: nat)
    requires 0 < b <= B && b' <= b && q' * b < q * b' + b
    requires q * B <= Q * b + fills * B
    ensures q' * B < Q * b' + (fills + 1) * B
  {
    var x, y := q' * B, Q * b' + (fills + 1) * B;
    assert x * b < y * b by {
      ScaledUp(q, b, q', b', B);
      ScaledOver(q, b, b', Q, B, fills);
    }
    CancelledStrict(x, y, b);
  }

  lemma ScaledUp(q: nat, b: nat, q': nat, b': nat, B: nat)
    requires B > 0 && q' * b < q * b' + b
    ensures (q' * B) * b < (q * B) * b' + b * B
  {
    MulStrict(q' * b, q * b' + b, B);
    assert (q' * b) * B == (q' * B) * b;
    assert (q * b' + b) * B == (q * B) * b' + b * B;
  }

  lemma ScaledOver(q: nat, b: nat, b': nat, Q: nat, B: nat, fills: nat)
    requires b' <= b && q * B <= Q * b + fills * B
    ensures (q * B) * b' + b * B <= (Q * b' + (fills + 1) * B) * b
  {
    MulMono(q * B, Q * b + fills * B, b');
    Distributed(Q * b, fills * B, b');
    assert (Q * b) * b' == (Q * b') * b;
    MulMono(b', b, fills * B);
    Distributed(Q * b', fills * B + B, b);
    Distributed(fills * B, B, b);
    assert (fills + 1) * B == fills * B + B;
  }

  lemma Distributed(x: nat, y: nat, z: nat)
    ensures (x + y) * z == x * z + y * z
  {
  }
}
