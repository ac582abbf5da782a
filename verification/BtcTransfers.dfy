/** Classifying a confirmed Bitcoin transaction for one watched address, and what the
    classifications of many addresses add up to. Amounts are unbounded. */
module BtcTransfers {
  import opened Wrappers
  import opened Text
  import opened Digits
  import AmountDisplay

  datatype Output = Output(address: Option<string>, value: int)
  datatype Input = Input(prevout: Option<Output>)
  datatype Status = Status(confirmed: bool, blockHeight: Option<int>, blockHash: Option<string>)
  datatype Transaction = Transaction(txid: string, status: Status, inputs: seq<Input>, outputs: seq<Output>)

  datatype Direction = Incoming | Outgoing | SelfTransfer

  datatype Transfer = Transfer(
    txHash: string, blockNumber: int, blockHash: Option<string>, direction: Direction,
    amountRaw: string, amountDecimal: string, receivedRaw: string, spentRaw: string)

  datatype Error =
    | InvalidAddress | NotConfirmed | MissingHeight | NegativeHeight | InvalidTxid | InvalidBlockHash
    | NegativeOutput | NegativePrevout | Display(error: AmountDisplay.Error)

  // ---------- Validation ----------

  predicate IsAlphanumeric(c: char) { IsDigit(c) || 'a' <= c <= 'z' || 'A' <= c <= 'Z' }

  predicate SupportedPrefix(a: string) {
    || (|a| >= 3 && (a[..3] == "bc1" || a[..3] == "tb1"))
    || (|a| >= 1 && (a[0] == '1' || a[0] == '3'))
  }

  predicate AddressShape(a: string) {
    14 <= |a| <= 90 && SupportedPrefix(a) && forall i :: 0 <= i < |a| ==> IsAlphanumeric(a[i])
  }

  function NormalizeAddress(address: string): Result<string, Error> {
    var a := Trim(address, RustSpace);
    if AddressShape(a) then Ok(a) else Err(InvalidAddress)
  }

  // A well-formed address is looked up as it is written.
  lemma WellFormedAddress(a: string)
    requires AddressShape(a)
    ensures NormalizeAddress(a) == Ok(a)
  {
    assert IsAlphanumeric(a[0]) && IsAlphanumeric(a[|a| - 1]);
  }

  predicate IsHash(s: string) { |s| == 64 && AllHexDigits(s) }

  // The checks made before any amount is looked at.
  function HeaderError(tx: Transaction): Option<Error> {
    if !tx.status.confirmed then Some(NotConfirmed)
    else if tx.status.blockHeight.None? then Some(MissingHeight)
    else if tx.status.blockHeight.value < 0 then Some(NegativeHeight)
    else if !IsHash(tx.txid) then Some(InvalidTxid)
    else if tx.status.blockHash.Some? && !IsHash(tx.status.blockHash.value) then Some(InvalidBlockHash)
    else None
  }

  predicate OutputsValid(outputs: seq<Output>) { forall i :: 0 <= i < |outputs| ==> outputs[i].value >= 0 }

  predicate PrevoutsValid(inputs: seq<Input>) {
    forall i :: 0 <= i < |inputs| && inputs[i].prevout.Some? ==> inputs[i].prevout.value.value >= 0
  }

  // No check fails, whatever address is watched.
  predicate Valid(tx: Transaction) { HeaderError(tx).None? && OutputsValid(tx.outputs) && PrevoutsValid(tx.inputs) }

  // ---------- Sums ----------

  function Sum<T>(xs: seq<T>, weight: T -> int): int {
    if xs == [] then 0 else Sum(xs[..|xs| - 1], weight) + weight(xs[|xs| - 1])
  }

  function PaidTo(a: string): Output -> int { (o: Output) => if o.address == Some(a) then o.value else 0 }

  function TakenFrom(a: string): Input -> int {
    (i: Input) => if i.prevout.Some? && i.prevout.value.address == Some(a) then i.prevout.value.value else 0
  }

  function Received(tx: Transaction, a: string): int { Sum(tx.outputs, PaidTo(a)) }

  function Spent(tx: Transaction, a: string): int { Sum(tx.inputs, TakenFrom(a)) }

  lemma {:induction false} SumNonNegative<T>(xs: seq<T>, weight: T -> int)
    requires forall i :: 0 <= i < |xs| ==> weight(xs[i]) >= 0
    ensures Sum(xs, weight) >= 0
  {
    if xs != [] { SumNonNegative(xs[..|xs| - 1], weight); }
  }

  // ---------- Classification ----------

  // What the classifier reports when received and spent are the address's sums.
  ghost predicate Reports(r: Option<Transfer>, tx: Transaction, received: int, spent: int) {
    && (r.None? <==> received == 0 && spent == 0)
    && (r.Some? ==>
          var t := r.value;
          && t.txHash == tx.txid && tx.status.blockHeight == Some(t.blockNumber) && t.blockHash == tx.status.blockHash
          && AllDigits(t.receivedRaw) && Value(t.receivedRaw) == received
          && AllDigits(t.spentRaw) && Value(t.spentRaw) == spent
          && Canonical(t.amountRaw) && Amount(t) == received - spent
          && (t.direction == SelfTransfer <==> received == spent)
          && (t.direction == SelfTransfer ==> Value(t.amountRaw) == 0)
          && AmountDisplay.ReadBack(t.amountDecimal, 8) == Some(Value(t.amountRaw))
          && AmountDisplay.Tidy(t.amountDecimal, 8))
  }

  // The signed amount of a transfer.
  function Amount(t: Transfer): int
    requires AllDigits(t.amountRaw)
  {
    match t.direction
    case Incoming => Value(t.amountRaw)
    case Outgoing => (var v: int := Value(t.amountRaw); -v)
    case SelfTransfer => 0
  }

  function MakeTransfer(tx: Transaction, received: nat, spent: nat): Result<Option<Transfer>, Error>
    requires HeaderError(tx).None?
  {
    if received == 0 && spent == 0 then Ok(None)
    else
      var delta := received - spent;
      var direction := if delta > 0 then Incoming else if delta < 0 then Outgoing else SelfTransfer;
      var amount := Numeral(if delta < 0 then -delta else delta);
      match AmountDisplay.RawToDecimal(AmountDisplay.Btc, amount, 8)
      case Err(e) => Err(Display(e))
      case Ok(shown) =>
        Ok(Some(Transfer(tx.txid, tx.status.blockHeight.value, tx.status.blockHash, direction,
                         amount, shown, Numeral(received), Numeral(spent))))
  }

  lemma MakeTransferReports(tx: Transaction, received: nat, spent: nat)
    requires HeaderError(tx).None?
    ensures MakeTransfer(tx, received, spent).Ok?
    ensures Reports(MakeTransfer(tx, received, spent).value, tx, received, spent)
  {
    hide AmountDisplay.RawToDecimal, AmountDisplay.Tidy, AmountDisplay.ReadBack, AmountDisplay.Denotes, IsHash;
    hide Numeral, Value, AllDigits, AllHexDigits;
    NumeralIsCanonical(received);
    NumeralIsCanonical(spent);
    var delta := received - spent;
    var size := if delta < 0 then -delta else delta;
    NumeralIsCanonical(size);
    AmountDisplay.ExactDisplay(AmountDisplay.Btc, Numeral(size), 8);
  }

  // The first failing check, in the order the classifier makes them.
  function Failure(tx: Transaction, watched: string): Option<Error> {
    if NormalizeAddress(watched).Err? then Some(InvalidAddress)
    else if HeaderError(tx).Some? then HeaderError(tx)
    else if !OutputsValid(tx.outputs) then Some(NegativeOutput)
    else if !PrevoutsValid(tx.inputs) then Some(NegativePrevout)
    else None
  }

  lemma SumsNonNegative(tx: Transaction, a: string)
    requires OutputsValid(tx.outputs) && PrevoutsValid(tx.inputs)
    ensures Received(tx, a) >= 0 && Spent(tx, a) >= 0
  {
    SumNonNegative(tx.outputs, PaidTo(a));
    SumNonNegative(tx.inputs, TakenFrom(a));
  }

  // What the classifier returns, by the sums.
  function Classified(tx: Transaction, watched: string): Result<Option<Transfer>, Error> {
    if Failure(tx, watched).Some? then Err(Failure(tx, watched).value)
    else
      var a := NormalizeAddress(watched).value;
      SumsNonNegative(tx, a);
      MakeTransfer(tx, Received(tx, a), Spent(tx, a))
  }

  lemma {:induction false} SumStep<T>(xs: seq<T>, weight: T -> int, n: nat)
    requires n < |xs|
    ensures Sum(xs[..n + 1], weight) == Sum(xs[..n], weight) + weight(xs[n])
  {
    assert xs[..n + 1][..n] == xs[..n];
  }

  // The two accumulating loops: an error exactly for an invalid address or transaction, and otherwise what the
  // address received and spent, netted.
  method Classify(tx: Transaction, watched: string) returns (r: Result<Option<Transfer>, Error>)
    ensures r == Classified(tx, watched)
    ensures r.Err? <==> Failure(tx, watched).Some?
    ensures r.Err? ==> Failure(tx, watched) == Some(r.error)
    ensures r.Ok? ==> NormalizeAddress(watched).Ok?
                      && (var a := NormalizeAddress(watched).value; Reports(r.value, tx, Received(tx, a), Spent(tx, a)))
  {
    hide Reports, IsHash, AddressShape, Trim, SupportedPrefix;
    var normalized := NormalizeAddress(watched);
    if normalized.Err? {
      return Err(InvalidAddress);
    }
    var a := normalized.value;
    if HeaderError(tx).Some? {
      return Err(HeaderError(tx).value);
    }
    var received := 0;
    for i := 0 to |tx.outputs|
      invariant received == Sum(tx.outputs[..i], PaidTo(a)) && received >= 0
      invariant OutputsValid(tx.outputs[..i])
    {
      if tx.outputs[i].value < 0 {
        return Err(NegativeOutput);
      }
      SumStep(tx.outputs, PaidTo(a), i);
      if tx.outputs[i].address == Some(a) { received := received + tx.outputs[i].value; }
    }
    assert tx.outputs[..|tx.outputs|] == tx.outputs;
    var spent := 0;
    for i := 0 to |tx.inputs|
      invariant spent == Sum(tx.inputs[..i], TakenFrom(a)) && spent >= 0
      invariant PrevoutsValid(tx.inputs[..i])
    {
      SumStep(tx.inputs, TakenFrom(a), i);
      if tx.inputs[i].prevout.Some? {
        var prevout := tx.inputs[i].prevout.value;
        if prevout.value < 0 {
          return Err(NegativePrevout);
        }
        if prevout.address == Some(a) { spent := spent + prevout.value; }
      }
    }
    assert tx.inputs[..|tx.inputs|] == tx.inputs;
    MakeTransferReports(tx, received, spent);
    r := MakeTransfer(tx, received, spent);
  }

  // ---------- Which transactions are accepted ----------

  predicate AsciiLetterOrDigit(c: char) {
    48 <= c as int <= 57 || 65 <= c as int <= 90 || 97 <= c as int <= 122
  }

  // 14 to 90 letters and digits, once trimmed, beginning as an address of the chain does.
  ghost predicate AddressFits(watched: string) {
    var a := Trim(watched, RustSpace);
    && 14 <= |a| <= 90 && (forall c :: c in a ==> AsciiLetterOrDigit(c))
    && ("bc1" <= a || "tb1" <= a || "1" <= a || "3" <= a)
  }

  // 64 hexadecimal digits of either case.
  ghost predicate HashFits(s: string) {
    |s| == 64 && forall c :: c in s ==> 48 <= c as int <= 57 || 65 <= c as int <= 70 || 97 <= c as int <= 102
  }

  ghost predicate OutputsFit(tx: Transaction) { forall o :: o in tx.outputs ==> o.value >= 0 }

  ghost predicate PrevoutsFit(tx: Transaction) {
    forall i :: i in tx.inputs && i.prevout.Some? ==> i.prevout.value.value >= 0
  }

  ghost predicate BlockFits(status: Status) {
    status.confirmed && status.blockHeight.Some? && status.blockHeight.value >= 0
  }

  ghost predicate BlockHashFits(status: Status) { status.blockHash.Some? ==> HashFits(status.blockHash.value) }

  ghost predicate Fits(tx: Transaction, watched: string) {
    && AddressFits(watched) && BlockFits(tx.status) && HashFits(tx.txid) && BlockHashFits(tx.status)
    && OutputsFit(tx) && PrevoutsFit(tx)
  }

  lemma AddressFitsExactly(watched: string)
    ensures NormalizeAddress(watched).Ok? <==> AddressFits(watched)
  {
    var a := Trim(watched, RustSpace);
    forall c | c in a ensures IsAlphanumeric(c) <==> AsciiLetterOrDigit(c) {}
    if |a| >= 3 { PrefixFits(a); }
  }

  lemma PrefixFits(a: string)
    requires |a| >= 3
    ensures SupportedPrefix(a) <==> "bc1" <= a || "tb1" <= a || "1" <= a || "3" <= a
  {
  }

  lemma HashFitsExactly(s: string)
    ensures IsHash(s) <==> HashFits(s)
  {
    forall c | c in s
      ensures IsHexDigit(c) <==> 48 <= c as int <= 57 || 65 <= c as int <= 70 || 97 <= c as int <= 102
    {
    }
  }

  lemma ValuesFitExactly(tx: Transaction)
    ensures OutputsValid(tx.outputs) <==> OutputsFit(tx)
    ensures PrevoutsValid(tx.inputs) <==> PrevoutsFit(tx)
  {
    if OutputsFit(tx) {
      forall i | 0 <= i < |tx.outputs| ensures tx.outputs[i].value >= 0 { assert tx.outputs[i] in tx.outputs; }
    }
    if PrevoutsFit(tx) {
      forall i | 0 <= i < |tx.inputs| && tx.inputs[i].prevout.Some? ensures tx.inputs[i].prevout.value.value >= 0 {
        assert tx.inputs[i] in tx.inputs;
      }
    }
  }

  // The classifier answers exactly for a fitting address and transaction, and otherwise names the first thing that does
  // not fit: address, confirmation, height, its sign, transaction id, block hash, outputs, inputs.
  lemma AcceptsExactly(tx: Transaction, watched: string)
    ensures var r := Classified(tx, watched);
            && (r.Ok? <==> Fits(tx, watched))
            && (!AddressFits(watched) ==> r == Err(InvalidAddress))
            && (AddressFits(watched) ==>
                  && (!tx.status.confirmed ==> r == Err(NotConfirmed))
                  && (tx.status.confirmed && tx.status.blockHeight.None? ==> r == Err(MissingHeight))
                  && (tx.status.confirmed && tx.status.blockHeight.Some? && tx.status.blockHeight.value < 0 ==>
                        r == Err(NegativeHeight))
                  && (BlockFits(tx.status) && !HashFits(tx.txid) ==> r == Err(InvalidTxid))
                  && (BlockFits(tx.status) && HashFits(tx.txid) && !BlockHashFits(tx.status) ==>
                        r == Err(InvalidBlockHash)))
            && (Fits(tx.(outputs := [], inputs := []), watched) && !OutputsFit(tx) ==> r == Err(NegativeOutput))
            && (Fits(tx.(inputs := []), watched) && !PrevoutsFit(tx) ==> r == Err(NegativePrevout))
  {
    hide AddressFits, HashFits, OutputsFit, PrevoutsFit, NormalizeAddress, IsHash, OutputsValid, PrevoutsValid, Sum;
    AddressFitsExactly(watched);
    HashFitsExactly(tx.txid);
    if tx.status.blockHash.Some? { HashFitsExactly(tx.status.blockHash.value); }
    ValuesFitExactly(tx);
    NothingFits(tx);
    if Failure(tx, watched).None? { AnswersFor(tx, NormalizeAddress(watched).value); }
  }

  lemma NothingFits(tx: Transaction)
    ensures OutputsFit(tx.(outputs := [], inputs := [])) && PrevoutsFit(tx.(outputs := [], inputs := []))
    ensures PrevoutsFit(tx.(inputs := [])) && (OutputsFit(tx.(inputs := [])) <==> OutputsFit(tx))
  {
  }

  lemma AnswersFor(tx: Transaction, a: string)
    requires HeaderError(tx).None? && OutputsValid(tx.outputs) && PrevoutsValid(tx.inputs)
    ensures Received(tx, a) >= 0 && Spent(tx, a) >= 0 && MakeTransfer(tx, Received(tx, a), Spent(tx, a)).Ok?
  {
    hide Reports;
    SumsNonNegative(tx, a);
    MakeTransferReports(tx, Received(tx, a), Spent(tx, a));
  }

  // A confirmed transaction that pays seven satoshi to an address.
  function Sample(): Transaction {
    Transaction(seq(64, _ => 'a'), Status(true, Some(100), None), [], [Output(Some("3J98t1WpEZ73CNmQ"), 7)])
  }

  lemma SampleFits()
    ensures Fits(Sample(), "3J98t1WpEZ73CNmQ") && Trim("3J98t1WpEZ73CNmQ", RustSpace) == "3J98t1WpEZ73CNmQ"
  {
    var a := "3J98t1WpEZ73CNmQ";
    assert !RustSpace(a[0]) && !RustSpace(a[|a| - 1]);
    assert Sample().outputs[0].value == 7;
  }

  lemma SampleSums(a: string)
    requires a == "3J98t1WpEZ73CNmQ"
    ensures Received(Sample(), a) == 7 && Spent(Sample(), a) == 0
  {
    SumOfOne(Sample().outputs[0], PaidTo(a));
  }

  // It is reported as incoming, with its amount.
  lemma SampleIsIncoming()
    ensures var r := Classified(Sample(), "3J98t1WpEZ73CNmQ");
            r.Ok? && r.value.Some? && r.value.value.direction == Incoming && r.value.value.amountRaw == "7"
            && r.value.value.blockNumber == 100
  {
    hide Fits, AmountDisplay.RawToDecimal, AmountDisplay.Tidy, AmountDisplay.ReadBack, Trim, IsHash, AddressShape;
    var a := "3J98t1WpEZ73CNmQ";
    SampleFits();
    AcceptsExactly(Sample(), a);
    SampleSums(a);
    MakeTransferReports(Sample(), 7, 0);
    SevenIs();
    assert Failure(Sample(), a).None?;
    assert NormalizeAddress(a).value == a;
    assert Classified(Sample(), a) == MakeTransfer(Sample(), 7, 0);
  }

  lemma SevenIs()
    ensures Numeral(7) == "7"
  {
    assert DigitChar(7) == '7';
  }

  // ---------- Conservation ----------

  // What a classification contributes: its signed amount, nothing when there is no transfer.
  function Signed(r: Option<Transfer>): int
    requires r.Some? ==> AllDigits(r.value.amountRaw)
  {
    if r.Some? then Amount(r.value) else 0
  }

  // The reports made for a list of addresses, in order.
  ghost predicate ReportsFor(reports: seq<Option<Transfer>>, tx: Transaction, addresses: seq<string>) {
    |reports| == |addresses|
    && forall i :: 0 <= i < |addresses| ==> Reports(reports[i], tx, Received(tx, addresses[i]), Spent(tx, addresses[i]))
  }

  predicate Distinct(addresses: seq<string>) {
    forall i, j :: 0 <= i < j < |addresses| ==> addresses[i] != addresses[j]
  }

  function SignedSum(reports: seq<Option<Transfer>>): int
    requires forall i :: 0 <= i < |reports| && reports[i].Some? ==> AllDigits(reports[i].value.amountRaw)
  {
    if reports == [] then 0 else SignedSum(reports[..|reports| - 1]) + Signed(reports[|reports| - 1])
  }

  function PaidToAny(addresses: seq<string>): Output -> int {
    (o: Output) => if o.address.Some? && o.address.value in addresses then o.value else 0
  }

  function TakenFromAny(addresses: seq<string>): Input -> int {
    (i: Input) => if i.prevout.Some? && i.prevout.value.address.Some? && i.prevout.value.address.value in addresses
                  then i.prevout.value.value else 0
  }

  lemma {:induction false} SumAdds<T>(xs: seq<T>, f: T -> int, g: T -> int, h: T -> int)
    requires forall i :: 0 <= i < |xs| ==> h(xs[i]) == f(xs[i]) + g(xs[i])
    ensures Sum(xs, h) == Sum(xs, f) + Sum(xs, g)
  {
    if xs != [] { SumAdds(xs[..|xs| - 1], f, g, h); }
  }

  lemma {:induction false} SumZero<T>(xs: seq<T>, f: T -> int)
    requires forall i :: 0 <= i < |xs| ==> f(xs[i]) == 0
    ensures Sum(xs, f) == 0
  {
    if xs != [] { SumZero(xs[..|xs| - 1], f); }
  }

  // One more address of a duplicate-free list adds exactly its own part.
  lemma OneMoreAddress(tx: Transaction, front: seq<string>, a: string)
    requires a !in front
    ensures Sum(tx.outputs, PaidToAny(front + [a])) == Sum(tx.outputs, PaidToAny(front)) + Received(tx, a)
    ensures Sum(tx.inputs, TakenFromAny(front + [a])) == Sum(tx.inputs, TakenFromAny(front)) + Spent(tx, a)
  {
    SumAdds(tx.outputs, PaidToAny(front), PaidTo(a), PaidToAny(front + [a]));
    SumAdds(tx.inputs, TakenFromAny(front), TakenFrom(a), TakenFromAny(front + [a]));
  }

  // The signed amounts reported for a duplicate-free list of addresses add up to what the outputs pay
  // to the list less what the inputs take from it.
  lemma {:induction false} Conservation(tx: Transaction, addresses: seq<string>, reports: seq<Option<Transfer>>)
    requires Distinct(addresses) && ReportsFor(reports, tx, addresses)
    ensures SignedSum(reports) == Sum(tx.outputs, PaidToAny(addresses)) - Sum(tx.inputs, TakenFromAny(addresses))
  {
    hide AmountDisplay.Tidy, AmountDisplay.ReadBack, Value;
    if addresses == [] {
      SumZero(tx.outputs, PaidToAny([]));
      SumZero(tx.inputs, TakenFromAny([]));
    } else {
      var n := |addresses| - 1;
      var front, a := addresses[..n], addresses[n];
      assert addresses == front + [a];
      Conservation(tx, front, reports[..n]);
      OneMoreAddress(tx, front, a);
      SignedIsNet(reports[n], tx, Received(tx, a), Spent(tx, a));
    }
  }

  lemma SignedIsNet(r: Option<Transfer>, tx: Transaction, received: int, spent: int)
    requires Reports(r, tx, received, spent)
    ensures (r.Some? ==> AllDigits(r.value.amountRaw)) && Signed(r) == received - spent
  {
  }

  function OutputValue(): Output -> int { (o: Output) => o.value }

  function PrevoutValue(): Input -> int { (i: Input) => if i.prevout.Some? then i.prevout.value.value else 0 }

  lemma {:induction false} SumSame<T>(xs: seq<T>, f: T -> int, g: T -> int)
    requires forall i :: 0 <= i < |xs| ==> f(xs[i]) == g(xs[i])
    ensures Sum(xs, f) == Sum(xs, g)
  {
    if xs != [] { SumSame(xs[..|xs| - 1], f, g); }
  }

  // The list names the address of every output and every input.
  predicate Covers(addresses: seq<string>, tx: Transaction) {
    && (forall i :: 0 <= i < |tx.outputs| ==> tx.outputs[i].address.Some? && tx.outputs[i].address.value in addresses)
    && (forall i :: 0 <= i < |tx.inputs| ==>
          tx.inputs[i].prevout.Some? && tx.inputs[i].prevout.value.address.Some?
          && tx.inputs[i].prevout.value.address.value in addresses)
  }

  // When every address is watched the reported amounts add up to outputs minus inputs: the fee, negated.
  lemma FullCoverage(tx: Transaction, addresses: seq<string>, reports: seq<Option<Transfer>>)
    requires Distinct(addresses) && ReportsFor(reports, tx, addresses) && Covers(addresses, tx)
    ensures SignedSum(reports) == Sum(tx.outputs, OutputValue()) - Sum(tx.inputs, PrevoutValue())
  {
    hide Reports;
    Conservation(tx, addresses, reports);
    SumSame(tx.outputs, PaidToAny(addresses), OutputValue());
    SumSame(tx.inputs, TakenFromAny(addresses), PrevoutValue());
  }

  // The classifier's answers for a list of addresses.
  function ClassifiedAll(tx: Transaction, addresses: seq<string>): (answers: seq<Result<Option<Transfer>, Error>>)
    ensures |answers| == |addresses| && forall i :: 0 <= i < |addresses| ==> answers[i] == Classified(tx, addresses[i])
  {
    seq(|addresses|, i requires 0 <= i < |addresses| => Classified(tx, addresses[i]))
  }

  lemma ClassifiedReports(tx: Transaction, a: string)
    requires Valid(tx) && AddressShape(a)
    ensures Classified(tx, a).Ok? && Reports(Classified(tx, a).value, tx, Received(tx, a), Spent(tx, a))
  {
    hide Reports, AddressShape, IsHash;
    WellFormedAddress(a);
    SumsNonNegative(tx, a);
    MakeTransferReports(tx, Received(tx, a), Spent(tx, a));
  }

  // For a valid transaction and any duplicate-free list of well-formed addresses the classifier answers for each
  // of them, and the signed amounts of its answers add up to what the outputs pay to the list less what the inputs take
  // from it: outputs minus inputs when the list covers them all.
  lemma ClassifierConserves(tx: Transaction, addresses: seq<string>) returns (reports: seq<Option<Transfer>>)
    requires Valid(tx) && Distinct(addresses) && forall i :: 0 <= i < |addresses| ==> AddressShape(addresses[i])
    ensures |reports| == |addresses|
            && forall i :: 0 <= i < |addresses| ==> ClassifiedAll(tx, addresses)[i] == Ok(reports[i])
    ensures forall i :: 0 <= i < |reports| && reports[i].Some? ==> AllDigits(reports[i].value.amountRaw)
    ensures SignedSum(reports) == Sum(tx.outputs, PaidToAny(addresses)) - Sum(tx.inputs, TakenFromAny(addresses))
    ensures Covers(addresses, tx) ==>
              SignedSum(reports) == Sum(tx.outputs, OutputValue()) - Sum(tx.inputs, PrevoutValue())
  {
    hide Classified, AddressShape, AmountDisplay.Tidy, AmountDisplay.ReadBack, IsHash, Valid;
    forall i | 0 <= i < |addresses|
      ensures Classified(tx, addresses[i]).Ok?
      ensures Reports(Classified(tx, addresses[i]).value, tx, Received(tx, addresses[i]), Spent(tx, addresses[i]))
    {
      ClassifiedReports(tx, addresses[i]);
    }
    reports := seq(|addresses|, i requires 0 <= i < |addresses| => Classified(tx, addresses[i]).value);
    Conservation(tx, addresses, reports);
    if Covers(addresses, tx) { FullCoverage(tx, addresses, reports); }
  }

  // ---------- Order ----------

  lemma {:induction false} SumConcat<T>(xs: seq<T>, ys: seq<T>, weight: T -> int)
    ensures Sum(xs + ys, weight) == Sum(xs, weight) + Sum(ys, weight)
  {
    if ys == [] {
      assert xs + ys == xs;
    } else {
      SumConcat(xs, ys[..|ys| - 1], weight);
      assert (xs + ys)[..|xs + ys| - 1] == xs + ys[..|ys| - 1];
    }
  }

  lemma SumOfOne<T>(x: T, weight: T -> int)
    ensures Sum([x], weight) == weight(x)
  {
    assert [x][..0] == [];
  }

  lemma TakeOut<T>(ys: seq<T>, k: nat, weight: T -> int)
    requires k < |ys|
    ensures Sum(ys, weight) == Sum(ys[..k] + ys[k + 1..], weight) + weight(ys[k])
    ensures multiset(ys[..k] + ys[k + 1..]) == multiset(ys) - multiset{ys[k]}
  {
    hide Sum;
    assert ys == ys[..k] + ([ys[k]] + ys[k + 1..]);
    SumConcat(ys[..k], [ys[k]] + ys[k + 1..], weight);
    SumConcat([ys[k]], ys[k + 1..], weight);
    SumConcat(ys[..k], ys[k + 1..], weight);
    SumOfOne(ys[k], weight);
  }

  lemma {:induction false} SumOfPermutation<T>(xs: seq<T>, ys: seq<T>, weight: T -> int)
    requires multiset(xs) == multiset(ys)
    ensures Sum(xs, weight) == Sum(ys, weight)
  {
    hide Sum;
    if xs == [] {
      assert |multiset(ys)| == 0;
    } else {
      var n := |xs| - 1;
      TakeOut(xs, n, weight);
      assert xs[..n] + xs[n + 1..] == xs[..n];
      assert xs[n] in multiset(ys);
      var k :| 0 <= k < |ys| && ys[k] == xs[n];
      TakeOut(ys, k, weight);
      SumOfPermutation(xs[..n], ys[..k] + ys[k + 1..], weight);
    }
  }

  lemma SameElements<T>(xs: seq<T>, ys: seq<T>)
    requires multiset(xs) == multiset(ys)
    ensures forall x :: x in xs <==> x in ys
  {
    forall x ensures x in xs <==> x in ys {
      assert x in xs <==> x in multiset(xs);
      assert x in ys <==> x in multiset(ys);
    }
  }

  lemma SameValidity(tx: Transaction, other: Transaction)
    requires multiset(tx.outputs) == multiset(other.outputs) && multiset(tx.inputs) == multiset(other.inputs)
    ensures OutputsValid(tx.outputs) ==> OutputsValid(other.outputs)
    ensures PrevoutsValid(tx.inputs) ==> PrevoutsValid(other.inputs)
  {
    SameElements(tx.outputs, other.outputs);
    SameElements(tx.inputs, other.inputs);
    forall i | 0 <= i < |other.outputs| && OutputsValid(tx.outputs) ensures other.outputs[i].value >= 0 {
      assert other.outputs[i] in tx.outputs;
    }
    forall i | 0 <= i < |other.inputs| && PrevoutsValid(tx.inputs)
      ensures other.inputs[i].prevout.Some? ==> other.inputs[i].prevout.value.value >= 0
    {
      assert other.inputs[i] in tx.inputs;
    }
  }

  // The same outputs and inputs in another order give the same answer for every address, report or error.
  lemma OrderDoesNotMatter(tx: Transaction, other: Transaction, watched: string)
    requires tx.txid == other.txid && tx.status == other.status
    requires multiset(tx.outputs) == multiset(other.outputs) && multiset(tx.inputs) == multiset(other.inputs)
    ensures Classified(tx, watched) == Classified(other, watched)
  {
    hide Sum, OutputsValid, PrevoutsValid, NormalizeAddress, IsHash, AmountDisplay.RawToDecimal;
    SameValidity(tx, other);
    SameValidity(other, tx);
    var normalized := NormalizeAddress(watched);
    if normalized.Ok? {
      SumOfPermutation(tx.outputs, other.outputs, PaidTo(normalized.value));
      SumOfPermutation(tx.inputs, other.inputs, TakenFrom(normalized.value));
    }
  }
}
