/** The two Relay loops that choose how much native balance to send and how much to keep for gas. */
module RelayReserve {
  import opened Prelude

  /** What the fee provider answers the `k`-th time, asked about sending `amount`. Any answers at all. */
  type Price = (nat, int) -> int

  /** A fifth of the first fee, rounded up. */
  function Buffer(fee: int): (buffer: int)
    ensures 2 * fee <= 10 * buffer <= 2 * fee + 9
  {
    (fee * 2 + 9) / 10
  }

  // ---------------------------------------------------------------- planning

  datatype Quote =
    | Sufficient(asked: nat, amount: int, fee: int, reserve: int, buffer: int, exactCap: bool)
    | Insufficient(asked: nat, fee: int, buffer: int, exactCap: bool)
    | ReserveChanged(amount: int, fee: int, reserve: int)
    | InvalidFee

  /** The input, what is kept for gas, and how that was padded. */
  datatype Split = Split(amount: int, reserve: int, buffer: int, exactCap: bool)

  /** The padded fee, or the bare fee when the padding does not fit. */
  function Resplit(balance: int, fee: int, buffer: int, exactCap: bool): (s: Split)
    ensures s.amount + s.reserve == balance
    ensures 0 < fee < balance && 0 <= buffer ==> 0 < fee <= s.reserve < balance && 0 <= s.buffer
  {
    if fee + buffer >= balance then Split(balance - fee, fee, 0, true)
    else Split(balance - (fee + buffer), fee + buffer, buffer, exactCap)
  }

  function NativeFrom(balance: int, price: Price, k: nat, s: Split): Quote
    requires k < 3
    decreases 3 - k
  {
    var fee := price(k, s.amount);
    if fee <= 0 then InvalidFee
    else
      var buffer := if k == 0 then Buffer(fee) else s.buffer;
      if fee >= balance then Insufficient(k + 1, fee, buffer, s.exactCap)
      else if k > 0 && fee <= s.reserve then Sufficient(k + 1, s.amount, fee, s.reserve, buffer, s.exactCap)
      else if k == 2 then ReserveChanged(s.amount, fee, s.reserve)
      else NativeFrom(balance, price, k + 1, Resplit(balance, fee, buffer, s.exactCap))
  }

  function Native(balance: int, price: Price): Quote {
    NativeFrom(balance, price, 0, Split(balance, 0, 0, false))
  }

  /** The first quote is for the whole balance; `quotes` lists the amounts that were quoted, in order. */
  method NativeQuote(balance: int, price: Price) returns (r: Quote, ghost quotes: seq<int>)
    ensures r == Native(balance, price)
    ensures |quotes| <= 3 && forall i | 1 <= i < |quotes| :: 0 < quotes[i] < balance
    ensures r.Sufficient? ==> r.asked == |quotes| && quotes[|quotes| - 1] == r.amount && r.fee == price(r.asked - 1, r.amount)
  {
    var amount, reserve, buffer, exactCap := balance, 0, 0, false;
    quotes := [amount];
    var adjustment := 0;
    while true
      invariant 0 <= adjustment < 3
      invariant |quotes| == adjustment + 1 && quotes[adjustment] == amount
      invariant forall i | 1 <= i < |quotes| :: 0 < quotes[i] < balance
      invariant Native(balance, price) == NativeFrom(balance, price, adjustment, Split(amount, reserve, buffer, exactCap))
      invariant adjustment > 0 ==> 0 <= buffer
      invariant adjustment == 0 || 0 < amount < balance
      decreases 3 - adjustment
    {
      var fee := price(adjustment, amount);
      if fee <= 0 { return InvalidFee, quotes; }
      if adjustment == 0 { buffer := Buffer(fee); }
      if fee >= balance { return Insufficient(adjustment + 1, fee, buffer, exactCap), quotes; }
      if adjustment > 0 && fee <= reserve { return Sufficient(adjustment + 1, amount, fee, reserve, buffer, exactCap), quotes; }
      if adjustment == 2 { return ReserveChanged(amount, fee, reserve), quotes; }
      ghost var split := Resplit(balance, fee, buffer, exactCap);
      reserve := fee + buffer;
      if reserve >= balance {
        reserve, exactCap, buffer := fee, true, 0;
      }
      amount := balance - reserve;
      assert Split(amount, reserve, buffer, exactCap) == split;
      quotes := quotes + [amount];
      adjustment := adjustment + 1;
    }
  }

  ghost predicate QuoteFits(balance: int, price: Price, q: Quote) {
    match q
    case Sufficient(asked, amount, fee, reserve, _, _) =>
      2 <= asked <= 3 && 0 < amount && 0 < fee <= reserve && amount + reserve == balance && fee == price(asked - 1, amount)
    case Insufficient(asked, fee, _, _) => 1 <= asked <= 3 && fee >= balance && fee > 0
    case ReserveChanged(amount, fee, reserve) => 0 < amount && amount + reserve == balance && reserve < fee < balance
    case InvalidFee => true
  }

  lemma {:induction false} NativeFromFits(balance: int, price: Price, k: nat, s: Split)
    requires k < 3 && s.amount + s.reserve == balance && (k > 0 ==> 0 < s.reserve < balance && 0 <= s.buffer)
    ensures QuoteFits(balance, price, NativeFrom(balance, price, k, s))
    decreases 3 - k
  {
    var fee := price(k, s.amount);
    if 0 < fee < balance && k < 2 && (k == 0 || fee > s.reserve) {
      var buffer := if k == 0 then Buffer(fee) else s.buffer;
      NativeFromFits(balance, price, k + 1, Resplit(balance, fee, buffer, s.exactCap));
    }
  }

  /** Whatever the provider answers: an accepted quote has a positive input, and the input, its own re-priced fee included, fits
      the balance, after at most three fees; otherwise no input fits, or the last fee moved past the reserve once more. */
  lemma {:induction false} AcceptedQuoteFits(balance: int, price: Price)
    ensures match Native(balance, price)
            case Sufficient(asked, amount, fee, reserve, _, _) =>
              asked <= 3 && 0 < amount && fee == price(asked - 1, amount) && 0 < fee <= reserve && amount + fee <= amount + reserve == balance
            case Insufficient(_, fee, _, _) => fee >= balance
            case ReserveChanged(amount, fee, reserve) => 0 < amount && amount + reserve == balance && amount + fee > balance
            case InvalidFee => true
  {
    NativeFromFits(balance, price, 0, Split(balance, 0, 0, false));
  }

  /** A fee that does not move is accepted exactly when it is positive and below the balance, with the second fee. */
  lemma {:induction false} SteadyFeeAcceptedIff(balance: int, fee: int)
    ensures Native(balance, (k, amount) => fee).Sufficient? <==> 0 < fee < balance
    ensures 0 < fee < balance ==> Native(balance, (k, amount) => fee).asked == 2
  {
    var price: Price := (k, amount) => fee;
    if 0 < fee < balance {
      assert Native(balance, price) == NativeFrom(balance, price, 1, Resplit(balance, fee, Buffer(fee), false));
    }
  }

  /** When the padded fee fits the balance, a second fee up to a fifth higher is accepted at once. */
  lemma {:induction false} SmallRiseAccepted(balance: int, price: Price)
    requires var first := price(0, balance); 0 < first && first + Buffer(first) < balance
    ensures var first := price(0, balance);
            var amount := balance - (first + Buffer(first));
            var second := price(1, amount);
            0 < second && 5 * second <= 6 * first ==>
              Native(balance, price) == Sufficient(2, amount, second, first + Buffer(first), Buffer(first), false)
  {
    var first := price(0, balance);
    var amount := balance - (first + Buffer(first));
    assert Native(balance, price) == NativeFrom(balance, price, 1, Split(amount, first + Buffer(first), Buffer(first), false));
  }

  // ---------------------------------------------------------------- before signing

  datatype Prepared =
    | Ready(asked: nat, amount: int, fee: int)
    | BadAmount | BadFee | Short(fee: int) | Moved(amount: int, fee: int, reserve: int) | Uncovered(amount: int, fee: int)

  function Checked(balance: int, k: nat, amount: int, fee: int): Prepared {
    if balance < amount + fee then Uncovered(amount, fee) else Ready(k + 1, amount, fee)
  }

  /** The padding is fixed by the first fee that does not fit; the input only shrinks. */
  function Shrunk(balance: int, fee: int, amount: int, buffer: Option<int>): (s: (int, int, Option<int>))
    ensures 0 < fee < balance && (buffer.Some? ==> 0 <= buffer.value) && 0 < amount ==>
              0 < s.0 <= amount && fee <= s.1 && s.0 + s.1 <= balance && s.2.Some? && 0 <= s.2.value
  {
    var padding := buffer.GetOr(Buffer(fee));
    if fee + padding >= balance then (Min(amount, balance - fee), fee, Some(0))
    else (Min(amount, balance - (fee + padding)), fee + padding, Some(padding))
  }

  function PrepareFrom(balance: int, price: Price, automatic: bool, k: nat, amount: int, reserve: int,
        buffer: Option<int>): Prepared
    requires k < 3
    decreases 3 - k
  {
    var fee := price(k, amount);
    if fee <= 0 then BadFee
    else if !automatic then Checked(balance, k, amount, fee)
    else if fee >= balance then Short(fee)
    else if fee <= reserve then Checked(balance, k, amount, fee)
    else if k == 2 then Moved(amount, fee, reserve)
    else
      var (less, kept, padding) := Shrunk(balance, fee, amount, buffer);
      PrepareFrom(balance, price, automatic, k + 1, less, kept, padding)
  }

  /** `balance` is the lower of the live and the planned balance. */
  function Preparation(balance: int, planned: int, automatic: bool, price: Price): Prepared {
    var amount := if automatic then Min(planned, balance) else planned;
    if !(0 < amount <= balance) || (!automatic && amount == balance) then BadAmount
    else PrepareFrom(balance, price, automatic, 0, amount, balance - amount, None)
  }

  method Prepare(balance: int, planned: int, automatic: bool, price: Price) returns (r: Prepared)
    ensures r == Preparation(balance, planned, automatic, price)
  {
    var amount := planned;
    if automatic { amount := Min(amount, balance); }
    if !(0 < amount <= balance) || (!automatic && amount == balance) { return BadAmount; }
    var reserve, buffer: Option<int>, adjustment := balance - amount, None, 0;
    var fee := 0;
    while true
      invariant 0 <= adjustment < 3
      invariant Preparation(balance, planned, automatic, price) == PrepareFrom(balance, price, automatic, adjustment, amount, reserve, buffer)
      decreases 3 - adjustment
    {
      fee := price(adjustment, amount);
      if fee <= 0 { return BadFee; }
      if !automatic { break; }
      if fee >= balance { return Short(fee); }
      if fee <= reserve { break; }
      if adjustment == 2 { return Moved(amount, fee, reserve); }
      ghost var shrunk := Shrunk(balance, fee, amount, buffer);
      if buffer.None? { buffer := Some(Buffer(fee)); }
      reserve := fee + buffer.value;
      if reserve >= balance { reserve, buffer := fee, Some(0); }
      amount := Min(amount, balance - reserve);
      assert (amount, reserve, buffer) == shrunk;
      adjustment := adjustment + 1;
    }
    if balance < amount + fee { return Uncovered(amount, fee); }
    r := Ready(adjustment + 1, amount, fee);
  }

  ghost predicate PreparedWithin(balance: int, amount: int, price: Price, p: Prepared) {
    match p
    case Ready(asked, sent, fee) => 0 < asked <= 3 && 0 < sent <= amount && 0 < fee && sent + fee <= balance && fee == price(asked - 1, sent)
    case Moved(sent, fee, kept) => 0 < sent <= amount && sent + kept <= balance && kept < fee < balance
    case Short(fee) => fee >= balance
    case BadFee => true
    case _ => false
  }

  lemma {:induction false} PrepareFromFits(balance: int, price: Price, k: nat, amount: int, reserve: int,
        buffer: Option<int>)
    requires k < 3 && 0 < amount && 0 <= reserve && amount + reserve <= balance
    requires buffer.Some? ==> 0 <= buffer.value
    ensures PreparedWithin(balance, amount, price, PrepareFrom(balance, price, true, k, amount, reserve, buffer))
    decreases 3 - k
  {
    var fee := price(k, amount);
    if 0 < fee < balance && fee > reserve && k < 2 {
      var (less, kept, padding) := Shrunk(balance, fee, amount, buffer);
      PrepareFromFits(balance, price, k + 1, less, kept, padding);
    }
  }

  /** What is signed never exceeds the plan, and with the fee quoted for it never the balance, whatever the provider answers.
      With automatic requoting the input shrinks to make room, so the final balance check never fails. */
  lemma {:induction false} PreparedFits(balance: int, planned: int, automatic: bool, price: Price)
    ensures match Preparation(balance, planned, automatic, price)
            case Ready(asked, sent, fee) =>
              && asked <= 3 && 0 < sent <= planned && 0 < fee && sent + fee <= balance && fee == price(asked - 1, sent)
              && (!automatic ==> sent == planned && asked == 1)
            case Uncovered(sent, fee) => !automatic && sent == planned && sent + fee > balance
            case Moved(sent, fee, kept) => automatic && 0 < sent <= planned && sent + kept <= balance && kept < fee
            case Short(fee) => automatic && fee >= balance
            case BadAmount => planned <= 0 || balance <= 0 || (!automatic && planned >= balance)
            case BadFee => true
  {
    if automatic {
      var amount := Min(planned, balance);
      if 0 < amount {
        PrepareFromFits(balance, price, 0, amount, balance - amount, None);
      }
    }
  }

  /** A planned input with a fee that does not move is prepared exactly when the fee is positive and, for an automatic entry,
      below the balance; for a fixed entry, when it fits beside the input. */
  lemma {:induction false} SteadyFeePreparedIff(balance: int, planned: int, automatic: bool, fee: int)
    ensures Preparation(balance, planned, automatic, (k, amount) => fee).Ready? <==>
              0 < planned && 0 < fee && if automatic then fee < balance else planned + fee <= balance
  {
    var price: Price := (k, amount) => fee;
    if automatic && 0 < planned && 0 < fee < balance {
      var amount := Min(planned, balance);
      if fee > balance - amount {
        var (less, kept, padding) := Shrunk(balance, fee, amount, None);
        assert Preparation(balance, planned, automatic, price) == PrepareFrom(balance, price, true, 1, less, kept, padding);
      }
    }
  }

  /** Nothing is even priced exactly when nothing could be sent: no planned input or no balance, or a fixed input that leaves no gas. */
  lemma {:induction false} BadAmountIff(balance: int, planned: int, automatic: bool, price: Price)
    ensures Preparation(balance, planned, automatic, price) == BadAmount
            <==> planned <= 0 || balance <= 0 || (!automatic && planned >= balance)
  {
    if automatic {
      PreparedFits(balance, planned, automatic, price);
    }
  }

  /** A first fee that does not fit is padded by a fifth: when that fits the balance, a second fee up to a fifth higher is accepted
      at once, for the input that was left. */
  lemma {:induction false} SmallRisePrepared(balance: int, planned: int, price: Price)
    requires 0 < planned && 0 < balance
    requires var amount := Min(planned, balance);
             var first := price(0, amount);
             0 < first && first > balance - amount && first + Buffer(first) < balance
    ensures var first := price(0, Min(planned, balance));
            var less := Min(Min(planned, balance), balance - (first + Buffer(first)));
            var second := price(1, less);
            0 < second && 5 * second <= 6 * first ==> Preparation(balance, planned, true, price) == Ready(2, less, second)
  {
    var amount := Min(planned, balance);
    var first := price(0, amount);
    var less := Min(amount, balance - (first + Buffer(first)));
    assert Preparation(balance, planned, true, price) == PrepareFrom(balance, price, true, 1, less, first + Buffer(first), Some(Buffer(first)));
  }
}
