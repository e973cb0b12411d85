/** The demo pool: a constant-product swap with two floors, over token accounts that can refuse a transfer. */
module Pool {
  import opened Bytes

  const TWO_128: nat := 0x1_0000_0000_0000_0000_0000_0000_0000_0000

  const BPS: nat := 10_000
  const MAX_FEE_BPS: nat := 1_000

  type Fee = f: nat | f <= MAX_FEE_BPS

  datatype PoolError = EmptyPool | ZeroAmount | SlippageExceeded | TransferFailed

  datatype Quote = Quote(out: U64) | NoQuote(error: PoolError)

  function AfterFee(amountIn: nat, fee: Fee): nat {
    amountIn * (BPS - fee) / BPS
  }

  /** `amount_out`, with the cast to u64 written out. */
  function AmountOut(reserveIn: U64, reserveOut: U64, amountIn: U64, fee: Fee): Quote {
    if reserveIn == 0 || reserveOut == 0 then NoQuote(EmptyPool)
    else
      var inAfterFee := AfterFee(amountIn, fee);
      var out := reserveOut * inAfterFee / (reserveIn + inAfterFee) % TWO_64;
      if out == 0 then NoQuote(ZeroAmount) else Quote(out)
  }

  // ----- Arithmetic

  lemma MulLe(a: nat, b: nat, c: nat)
    requires a <= b
    ensures a * c <= b * c
  {
  }

  lemma MulLt(a: nat, b: nat, c: nat)
    requires a < b && c > 0
    ensures a * c < b * c
  {
  }

  /** q is the floor of n / d. */
  lemma FloorDiv(n: nat, d: nat)
    requires d > 0
    ensures forall q: nat :: q <= n / d <==> q * d <= n
  {
    var f := n / d;
    assert n == f * d + n % d && n % d < d;
    forall q: nat ensures q <= f <==> q * d <= n {
      if q <= f {
        MulLe(q, f, d);
      } else {
        MulLe(f + 1, q, d);
        assert (f + 1) * d == f * d + d;
      }
    }
  }

  lemma AfterFeeBound(x: nat, fee: Fee)
    ensures AfterFee(x, fee) <= x
  {
    FloorDiv(x * (BPS - fee), BPS);
    MulLe(BPS - fee, BPS, x);
    assert x * (BPS - fee) < (x + 1) * BPS;
  }

  /** The floor of a sum is at least the sum of the floors. */
  lemma AfterFeeSum(x: nat, y: nat, fee: Fee)
    ensures AfterFee(x, fee) + AfterFee(y, fee) <= AfterFee(x + y, fee)
  {
    var k := BPS - fee;
    FloorDiv(x * k, BPS);
    FloorDiv(y * k, BPS);
    FloorDiv((x + y) * k, BPS);
    assert (AfterFee(x, fee) + AfterFee(y, fee)) * BPS <= x * k + y * k == (x + y) * k;
  }

  /** The fee is taken from the input and rounded against the trader: what is left is the largest amount not above
      (10000 - fee) / 10000 of it. */
  lemma FeeIsExact(x: nat, fee: Fee)
    ensures forall q: nat :: q <= AfterFee(x, fee) <==> q * 10_000 <= x * (10_000 - fee)
  {
    FloorDiv(x * (BPS - fee), BPS);
  }

  function RawOut(reserveIn: nat, reserveOut: nat, inAfterFee: nat): nat
    requires reserveIn > 0
  {
    reserveOut * inAfterFee / (reserveIn + inAfterFee)
  }

  /** The exact floor, in product form: giving `out` keeps the product bound, and giving one more would break it. */
  lemma OutIsExact(reserveIn: nat, reserveOut: nat, inAfterFee: nat, o: nat)
    requires reserveIn > 0 && o <= reserveOut
    ensures o <= RawOut(reserveIn, reserveOut, inAfterFee)
       <==> (reserveOut - o) * (reserveIn + inAfterFee) >= reserveIn * reserveOut
    ensures RawOut(reserveIn, reserveOut, inAfterFee) <= reserveOut
    ensures reserveOut > 0 ==> RawOut(reserveIn, reserveOut, inAfterFee) < reserveOut
  {
    var d := reserveIn + inAfterFee;
    FloorDiv(reserveOut * inAfterFee, d);
    assert (reserveOut - o) * d == reserveOut * reserveIn + reserveOut * inAfterFee - o * d;
    assert reserveOut * d == reserveOut * reserveIn + reserveOut * inAfterFee;
    if reserveOut > 0 {
      MulLt(0, reserveIn, reserveOut);
      assert !(reserveOut * d <= reserveOut * inAfterFee);
    }
  }

  /** Nothing overflows u128 and the cast drops no bits. */
  lemma NothingLost(reserveIn: U64, reserveOut: U64, amountIn: U64, fee: Fee)
    requires reserveIn > 0 && reserveOut > 0
    ensures amountIn * (BPS - fee) < TWO_128
    ensures reserveOut * AfterFee(amountIn, fee) < TWO_128
    ensures reserveIn + AfterFee(amountIn, fee) < TWO_128
    ensures RawOut(reserveIn, reserveOut, AfterFee(amountIn, fee)) < reserveOut < TWO_64
    ensures AmountOut(reserveIn, reserveOut, amountIn, fee)
         == (if RawOut(reserveIn, reserveOut, AfterFee(amountIn, fee)) == 0 then NoQuote(ZeroAmount)
             else Quote(RawOut(reserveIn, reserveOut, AfterFee(amountIn, fee))))
  {
    var a := AfterFee(amountIn, fee);
    AfterFeeBound(amountIn, fee);
    MulLe(amountIn, TWO_64 - 1, BPS - fee);
    MulLe(reserveOut, TWO_64 - 1, a);
    MulLe(a, TWO_64 - 1, TWO_64 - 1);
    OutIsExact(reserveIn, reserveOut, a, 0);
  }

  /** `o` can be paid for `amountIn`: some net input the fee leaves covers it in the product of the reserves. */
  ghost predicate Affords(reserveIn: nat, reserveOut: nat, amountIn: nat, fee: Fee, o: nat)
    requires o <= reserveOut
  {
    exists net: nat :: && net * 10_000 <= amountIn * (10_000 - fee)
                       && (reserveOut - o) * (reserveIn + net) >= reserveIn * reserveOut
  }

  lemma AffordsExactly(reserveIn: nat, reserveOut: nat, amountIn: nat, fee: Fee, o: nat)
    requires reserveIn > 0 && o <= reserveOut
    ensures Affords(reserveIn, reserveOut, amountIn, fee, o)
       <==> o <= RawOut(reserveIn, reserveOut, AfterFee(amountIn, fee))
  {
    var a := AfterFee(amountIn, fee);
    FeeIsExact(amountIn, fee);
    OutIsExact(reserveIn, reserveOut, a, o);
    if net: nat :| net * 10_000 <= amountIn * (10_000 - fee)
                   && (reserveOut - o) * (reserveIn + net) >= reserveIn * reserveOut {
      MulLe(reserveIn + net, reserveIn + a, reserveOut - o);
    }
    if o <= RawOut(reserveIn, reserveOut, a) {
      assert a * 10_000 <= amountIn * (10_000 - fee);
    }
  }

  /**
   * The quote, in reserves, input and fee alone: no quote exactly when a side is empty or not even one unit can be
   * paid, and otherwise the largest output that can be.
   */
  lemma QuoteIsLargest(reserveIn: U64, reserveOut: U64, amountIn: U64, fee: Fee)
    ensures var q := AmountOut(reserveIn, reserveOut, amountIn, fee);
      && (q == NoQuote(EmptyPool) <==> reserveIn == 0 || reserveOut == 0)
      && (q == NoQuote(ZeroAmount)
          <==> reserveIn > 0 && reserveOut > 0 && !Affords(reserveIn, reserveOut, amountIn, fee, 1))
      && (q.NoQuote? ==> q.error.EmptyPool? || q.error.ZeroAmount?)
      && (q.Quote? ==>
            && 0 < q.out <= reserveOut
            && forall o: nat | o <= reserveOut ::
                 Affords(reserveIn, reserveOut, amountIn, fee, o) <==> o <= q.out)
  {
    if reserveIn > 0 && reserveOut > 0 {
      NothingLost(reserveIn, reserveOut, amountIn, fee);
      forall o: nat | o <= reserveOut
        ensures Affords(reserveIn, reserveOut, amountIn, fee, o)
           <==> o <= RawOut(reserveIn, reserveOut, AfterFee(amountIn, fee))
      {
        AffordsExactly(reserveIn, reserveOut, amountIn, fee, o);
      }
    }
  }

  /** A quoted output keeps the pool's product when the whole input, fee included, goes in. */
  lemma ProductKept(reserveIn: U64, reserveOut: U64, amountIn: U64, fee: Fee)
    requires AmountOut(reserveIn, reserveOut, amountIn, fee).Quote?
    ensures var out := AmountOut(reserveIn, reserveOut, amountIn, fee).out;
      0 < out < reserveOut && (reserveIn + amountIn) * (reserveOut - out) >= reserveIn * reserveOut
  {
    NothingLost(reserveIn, reserveOut, amountIn, fee);
    var a, out := AfterFee(amountIn, fee), AmountOut(reserveIn, reserveOut, amountIn, fee).out;
    AfterFeeBound(amountIn, fee);
    OutIsExact(reserveIn, reserveOut, a, out);
    MulLe(reserveIn + a, reserveIn + amountIn, reserveOut - out);
  }

  /** One swap against the reserves; the in-vault must be able to hold the input. */
  datatype Reserves = Reserves(a: U64, b: U64)

  function Trade(r: Reserves, amountIn: U64, fee: Fee): (Quote, Reserves) {
    var q := AmountOut(r.a, r.b, amountIn, fee);
    if q.NoQuote? then (q, r)
    else if r.a + amountIn >= TWO_64 then (NoQuote(TransferFailed), r)
    else
      NothingLost(r.a, r.b, amountIn, fee);
      (q, Reserves(r.a + amountIn, r.b - q.out))
  }

  /**
   * Splitting a trade never beats it: if `x` and then `y` both trade, `x + y` at once trades too and gives at least as
   * much as the two together.
   */
  lemma SplittingLoses(r: Reserves, x: U64, y: U64, fee: Fee)
    requires Trade(r, x, fee).0.Quote? && Trade(Trade(r, x, fee).1, y, fee).0.Quote?
    ensures x + y < TWO_64 && Trade(r, x + y, fee).0.Quote?
    ensures Trade(r, x, fee).0.out + Trade(Trade(r, x, fee).1, y, fee).0.out <= Trade(r, x + y, fee).0.out
  {
    var r1 := Trade(r, x, fee).1;
    var o1, o2 := Trade(r, x, fee).0.out, Trade(r1, y, fee).0.out;
    var a, b, c := AfterFee(x, fee), AfterFee(y, fee), AfterFee(x + y, fee);
    NothingLost(r.a, r.b, x, fee);
    NothingLost(r1.a, r1.b, y, fee);
    NothingLost(r.a, r.b, x + y, fee);
    AfterFeeBound(x, fee);
    AfterFeeSum(x, y, fee);
    OutIsExact(r.a, r.b, a, o1);
    OutIsExact(r1.a, r1.b, b, o2);
    SplitBound(r.a, r.b, r.b - o1, r.b - o1 - o2, a, x, b, c);
    OutIsExact(r.a, r.b, c, o1 + o2);
  }

  /**
   * The heart of it: `b0`, `b1`, `b2` are the out-reserve before, between and after. Each trade keeps its bound against
   * the in-reserve with its own input after fee; the second one started from an in-reserve that kept the whole of x.
   */
  lemma SplitBound(a0: nat, b0: nat, b1: nat, b2: nat, a: nat, x: nat, b: nat, c: nat)
    requires a <= x && a + b <= c
    requires b1 * (a0 + a) >= a0 * b0
    requires b2 * (a0 + x + b) >= (a0 + x) * b1
    requires b2 <= b1
    ensures b2 * (a0 + c) >= a0 * b0
  {
    // b2 * b >= (b1 - b2) * (a0 + x) >= (b1 - b2) * (a0 + a)
    assert b2 * b >= (b1 - b2) * (a0 + x) by {
      assert b2 * (a0 + x + b) == b2 * (a0 + x) + b2 * b;
      assert (b1 - b2) * (a0 + x) == b1 * (a0 + x) - b2 * (a0 + x);
    }
    MulLe(a0 + a, a0 + x, b1 - b2);
    assert b2 * (a0 + a + b) >= b1 * (a0 + a) by {
      assert b2 * (a0 + a + b) == b2 * (a0 + a) + b2 * b;
      assert (b1 - b2) * (a0 + a) == b1 * (a0 + a) - b2 * (a0 + a);
    }
    MulLe(a0 + a + b, a0 + c, b2);
  }

  /** A larger trade of the same pool gives at least as much. */
  lemma MoreInMoreOut(r: Reserves, x: U64, z: U64, fee: Fee)
    requires x <= z && r.a + z < TWO_64 && Trade(r, x, fee).0.Quote?
    ensures Trade(r, z, fee).0.Quote? && Trade(r, x, fee).0.out <= Trade(r, z, fee).0.out
  {
    var o, a, c := Trade(r, x, fee).0.out, AfterFee(x, fee), AfterFee(z, fee);
    AfterFeeSum(x, z - x, fee);
    NothingLost(r.a, r.b, x, fee);
    NothingLost(r.a, r.b, z, fee);
    OutIsExact(r.a, r.b, a, o);
    MulLe(r.a + a, r.a + c, r.b - o);
    OutIsExact(r.a, r.b, c, o);
  }

  /** What a trade brings in: nothing when it fails. */
  function Got(r: Reserves, amountIn: U64, fee: Fee): nat {
    if Trade(r, amountIn, fee).0.Quote? then Trade(r, amountIn, fee).0.out else 0
  }

  /** The same whether or not the parts trade: no way of splitting an input the vault can hold brings in more. */
  lemma SplittingNeverPays(r: Reserves, x: U64, y: U64, fee: Fee)
    requires r.a + x + y < TWO_64
    ensures Got(r, x, fee) + Got(Trade(r, x, fee).1, y, fee) <= Got(r, x + y, fee)
  {
    var first := Trade(r, x, fee);
    if first.0.Quote? {
      if Trade(first.1, y, fee).0.Quote? {
        SplittingLoses(r, x, y, fee);
      } else {
        MoreInMoreOut(r, x, x + y, fee);
      }
    } else if Trade(r, y, fee).0.Quote? {
      MoreInMoreOut(r, y, x + y, fee);
    }
  }

  // ----- Runs

  function Flip(r: Reserves): Reserves {
    Reserves(r.b, r.a)
  }

  /** What can happen to the vaults: a swap either way, a deposit or a transfer in. */
  datatype PoolStep = SwapStep(amountIn: U64, aToB: bool) | AddStep(amountA: U64, amountB: U64)

  /** A step that fails leaves the vaults as they were. */
  function StepTo(r: Reserves, s: PoolStep, fee: Fee): Reserves {
    match s
    case SwapStep(amountIn, aToB) =>
      if aToB then Trade(r, amountIn, fee).1 else Flip(Trade(Flip(r), amountIn, fee).1)
    case AddStep(x, y) =>
      if r.a + x < TWO_64 && r.b + y < TWO_64 then Reserves(r.a + x, r.b + y) else r
  }

  function RunTo(r: Reserves, steps: seq<PoolStep>, fee: Fee): Reserves
    decreases steps
  {
    if steps == [] then r else RunTo(StepTo(r, steps[0], fee), steps[1..], fee)
  }

  lemma StepKeepsProduct(r: Reserves, s: PoolStep, fee: Fee)
    ensures var r' := StepTo(r, s, fee);
      && r'.a * r'.b >= r.a * r.b
      && (r.a > 0 && r.b > 0 ==> r'.a > 0 && r'.b > 0)
  {
    match s
    case SwapStep(amountIn, aToB) =>
      var from := if aToB then r else Flip(r);
      if Trade(from, amountIn, fee).0.Quote? {
        ProductKept(from.a, from.b, amountIn, fee);
      }
    case AddStep(x, y) =>
      if r.a + x < TWO_64 && r.b + y < TWO_64 {
        MulLe(r.a, r.a + x, r.b);
        MulLe(r.b, r.b + y, r.a + x);
      }
  }

  /**
   * Over every run the product never falls and a pool with both sides keeps both; so if one vault ends no higher than
   * it began, the other ends no lower.
   */
  lemma {:induction false} RunKeepsProduct(r: Reserves, steps: seq<PoolStep>, fee: Fee)
    ensures var r' := RunTo(r, steps, fee);
      && r'.a * r'.b >= r.a * r.b
      && (r.a > 0 && r.b > 0 ==>
            && r'.a > 0 && r'.b > 0
            && (r'.a <= r.a ==> r'.b >= r.b)
            && (r'.b <= r.b ==> r'.a >= r.a))
    decreases steps
  {
    if steps != [] {
      StepKeepsProduct(r, steps[0], fee);
      RunKeepsProduct(StepTo(r, steps[0], fee), steps[1..], fee);
      var r' := RunTo(r, steps, fee);
      if r.a > 0 && r.b > 0 {
        if r'.a <= r.a && r'.b < r.b {
          MulLe(r'.a, r.a, r'.b);
          MulLt(r'.b, r.b, r.a);
          assert false;
        }
        if r'.b <= r.b && r'.a < r.a {
          MulLe(r'.b, r.b, r'.a);
          MulLt(r'.a, r.a, r.b);
          assert false;
        }
      }
    }
  }

  /** Selling `x` and then selling back exactly what came out never returns more than `x`. */
  lemma ThereAndBack(r: Reserves, x: U64, fee: Fee)
    requires Trade(r, x, fee).0.Quote?
    ensures var (first, r1) := Trade(r, x, fee);
      var back := Trade(Flip(r1), first.out, fee).0;
      back.Quote? ==> back.out <= x
  {
    var (first, r1) := Trade(r, x, fee);
    NothingLost(r.a, r.b, x, fee);
    var steps := [SwapStep(x, true), SwapStep(first.out, false)];
    assert steps[1..] == [SwapStep(first.out, false)] && steps[1..][1..] == [];
    assert RunTo(r, steps, fee) == RunTo(r1, steps[1..], fee) == StepTo(r1, SwapStep(first.out, false), fee);
    RunKeepsProduct(r, steps, fee);
  }

  // ----- The program

  /** A token account: whose signature moves its tokens, and whether the gate has it frozen. */
  class TokenAccount {
    const authority: nat
    var amount: U64
    var frozen: bool

    constructor (authority: nat, amount: U64, frozen: bool)
      ensures this.authority == authority && this.amount == amount && this.frozen == frozen
    {
      this.authority, this.amount, this.frozen := authority, amount, frozen;
    }
  }

  /** The token program would carry out the transfer. */
  predicate Moves(from: TokenAccount, to: TokenAccount, authority: nat, amount: U64)
    reads from, to
  {
    && from.authority == authority && !from.frozen && !to.frozen && amount <= from.amount
    && (from == to || to.amount + amount < TWO_64)
  }

  /** `transfer_checked` between accounts of one mint. A transfer to itself moves nothing. */
  method Transfer(from: TokenAccount, to: TokenAccount, authority: nat, amount: U64) returns (ok: bool)
    modifies from`amount, to`amount
    ensures ok <==> old(Moves(from, to, authority, amount))
    ensures from.amount == old(from.amount) - (if ok && from != to then amount else 0)
    ensures to.amount == old(to.amount) + (if ok && from != to then amount else 0)
  {
    if from.authority != authority || from.frozen || to.frozen || from.amount < amount {
      return false;
    }
    if from == to {
      return true;
    }
    if to.amount + amount >= TWO_64 {
      return false;
    }
    from.amount := from.amount - amount;
    to.amount := to.amount + amount;
    return true;
  }

  datatype SwapResult = Swapped(out: U64) | SwapFailed(error: PoolError)

  /** `init_pool`: a fee of more than a tenth is refused, and no pool is made. */
  method InitPool(id: nat, feeBps: nat, gatedA: bool, gatedB: bool) returns (pool: Option<Pool>)
    ensures pool.Some? <==> feeBps <= 1_000
    ensures pool.Some? ==>
      && fresh(pool.value) && pool.value.Valid() && pool.value.id == id && pool.value.fee == feeBps
      && pool.value.Vaults() == Reserves(0, 0)
  {
    if feeBps > MAX_FEE_BPS {
      return None;
    }
    var created := new Pool(id, feeBps, gatedA, gatedB);
    return Some(created);
  }

  class Pool {
    const id: nat
    const fee: Fee
    const vaultA: TokenAccount
    const vaultB: TokenAccount

    /** `init_pool`: two empty vaults of the pool's, frozen when their mint starts accounts frozen. */
    constructor (id: nat, fee: Fee, gatedA: bool, gatedB: bool)
      ensures fresh(vaultA) && fresh(vaultB) && this.id == id && this.fee == fee && Valid()
      ensures Vaults() == Reserves(0, 0) && vaultA.frozen == gatedA && vaultB.frozen == gatedB
    {
      this.id, this.fee := id, fee;
      vaultA := new TokenAccount(id, 0, gatedA);
      vaultB := new TokenAccount(id, 0, gatedB);
    }

    predicate Valid() {
      vaultA != vaultB && vaultA.authority == id && vaultB.authority == id
    }

    function Vaults(): Reserves
      reads vaultA, vaultB
    {
      Reserves(vaultA.amount, vaultB.amount)
    }

    /** `a` holds mint A and `b` mint B, so neither is the other, or the other side's vault. */
    predicate Sides(a: TokenAccount, b: TokenAccount) {
      a != b && a != vaultB && b != vaultA
    }

    /** Both transfers happen or neither does (the runtime undoes a failed instruction); a zero amount needs none. */
    method Deposit(admin: nat, adminA: TokenAccount, adminB: TokenAccount, amountA: U64, amountB: U64)
      returns (ok: bool)
      requires Valid() && Sides(adminA, adminB) && admin != id
      modifies vaultA`amount, vaultB`amount, adminA`amount, adminB`amount
      ensures ok
         <==> old(amountA > 0 ==> Moves(adminA, vaultA, admin, amountA))
              && old(amountB > 0 ==> Moves(adminB, vaultB, admin, amountB))
      ensures ok ==> Vaults() == StepTo(old(Vaults()), AddStep(amountA, amountB), fee)
      ensures ok && amountA > 0 ==> adminA.amount == old(adminA.amount) - amountA
      ensures ok && amountB > 0 ==> adminB.amount == old(adminB.amount) - amountB
      ensures !ok ==>
        Vaults() == old(Vaults()) && adminA.amount == old(adminA.amount) && adminB.amount == old(adminB.amount)
    {
      if amountA > 0 {
        ok := Transfer(adminA, vaultA, admin, amountA);
        if !ok {
          return;
        }
      }
      if amountB > 0 {
        ok := Transfer(adminB, vaultB, admin, amountB);
        if !ok {
          if amountA > 0 {
            adminA.amount, vaultA.amount := adminA.amount + amountA, vaultA.amount - amountA;
          }
          return;
        }
      }
      return true;
    }

    /** What a swap answers: an amount, or the first thing in the way. */
    function Result(user: nat, userIn: TokenAccount, userOut: TokenAccount, vaultIn: TokenAccount,
                    vaultOut: TokenAccount,
                    amountIn: U64, minAmountOut: U64): SwapResult
      reads userIn, userOut, vaultIn, vaultOut
    {
      match AmountOut(vaultIn.amount, vaultOut.amount, amountIn, fee)
      case NoQuote(error) => SwapFailed(error)
      case Quote(out) =>
        if out < minAmountOut then SwapFailed(SlippageExceeded)
        else if Moves(userIn, vaultIn, user, amountIn) && Moves(vaultOut, userOut, id, out) then Swapped(out)
        else SwapFailed(TransferFailed)
    }

    /**
     * Sells `amountIn` of one side for the other. On success the vaults take the modelled step (only its first half if
     * the user named the vault itself as the receiving account), what leaves the user enters the vault and the reverse,
     * the output meets the user's minimum, and no account that moved was frozen. On failure no balance changes.
     */
    method Swap(user: nat, userA: TokenAccount, userB: TokenAccount, amountIn: U64, minAmountOut: U64, aToB: bool)
      returns (r: SwapResult)
      requires Valid() && Sides(userA, userB) && user != id
      modifies vaultA`amount, vaultB`amount, userA`amount, userB`amount
      ensures r.Swapped? ==>
        && (if (if aToB then userB == vaultB else userA == vaultA)
            then Vaults() == StepTo(old(Vaults()), if aToB then AddStep(amountIn, 0) else AddStep(0, amountIn), fee)
            else Vaults() == StepTo(old(Vaults()), SwapStep(amountIn, aToB), fee))
        && r.out >= minAmountOut && r.out > 0
        && !userA.frozen && !userB.frozen && !vaultA.frozen && !vaultB.frozen
        && (aToB ==> userA.amount == old(userA.amount) - amountIn)
        && (aToB && userB != vaultB ==> userB.amount == old(userB.amount) + r.out)
        && (!aToB ==> userB.amount == old(userB.amount) - amountIn)
        && (!aToB && userA != vaultA ==> userA.amount == old(userA.amount) + r.out)
      ensures r.SwapFailed? ==>
        Vaults() == old(Vaults()) && userA.amount == old(userA.amount) && userB.amount == old(userB.amount)
      ensures r == old(if aToB then Result(user, userA, userB, vaultA, vaultB, amountIn, minAmountOut)
                       else Result(user, userB, userA, vaultB, vaultA, amountIn, minAmountOut))
    {
      var userIn, vaultIn := userB, vaultB;
      var userOut, vaultOut := userA, vaultA;
      if aToB {
        userIn, vaultIn, userOut, vaultOut := userA, vaultA, userB, vaultB;
      }
      var quote := AmountOut(vaultIn.amount, vaultOut.amount, amountIn, fee);
      if quote.NoQuote? {
        return SwapFailed(quote.error);
      }
      if quote.out < minAmountOut {
        return SwapFailed(SlippageExceeded);
      }
      var ok := Transfer(userIn, vaultIn, user, amountIn);
      if !ok {
        return SwapFailed(TransferFailed);
      }
      ok := Transfer(vaultOut, userOut, id, quote.out);
      if !ok {
        userIn.amount, vaultIn.amount := userIn.amount + amountIn, vaultIn.amount - amountIn;
        return SwapFailed(TransferFailed);
      }
      return Swapped(quote.out);
    }
  }
}
