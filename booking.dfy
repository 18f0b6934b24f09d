/**
 * The client side of booking a stay: find the guest's address through the
 * contract handle, check that the rental contract has a payment token, compute the escrow quote, make sure the contract may pull
 * that much from the guest (approving exactly the quote when the current
 * allowance falls short), then ask the contract to book the nights.
 */
module Booking {
  import opened Wrappers
  import opened Chain
  import opened Escrow

  /** Why the booking page gives up before it asks the contract to book. */
  datatype BookError =
    | NoSigner                    // the contract handle yields no signer to take the guest's address from
    | PaymentTokenNotConfigured   // the contract reports no payment token, or the zero address
    | ApprovalOutOfRange          // the quote does not fit the uint256 argument of approve

  /** A transaction the booking page sends, in the order it sends them. */
  datatype Call =
    | Approve(spender: Address, amount: nat)
    | BookNights(aid: nat, timestamps: seq<nat>)

  /**
   * The guest's address as the code is written: it reads `contract.signer`, a
   * property an ethers v6 Contract does not have, so `signer.getAddress()` throws
   * whatever the contract is connected to.
   */
  function SignerAsWritten(contract: ContractHandle): (user: Result<Address, BookError>)
    ensures user == Failure(NoSigner)
  {
    Failure(NoSigner)
  }

  /**
   * The guest's address through `contract.runner`: the wallet's address when the
   * contract is connected to a wallet; a read-only provider has no address to give.
   */
  function SignerOf(contract: ContractHandle): (user: Result<Address, BookError>)
    ensures user.Success? <==> contract.runner.Wallet?
    ensures user.Success? ==> user.value == contract.runner.address
  {
    match contract.runner
    case Wallet(address) => Success(address)
    case ReadOnly => Failure(NoSigner)
  }

  /** The two lookups differ on every contract connected to a wallet. */
  lemma SignerLookupDiscrepancy(contract: ContractHandle)
    requires contract.runner.Wallet?
    ensures SignerAsWritten(contract).Failure?
    ensures SignerOf(contract) == Success(contract.runner.address)
  {
  }

  /** A concrete instance: a wallet at address 1 booking through the rental contract at address 2. */
  lemma SignerLookupCounterexample()
    ensures var contract := ContractHandle(Wallet(1), 2);
      SignerAsWritten(contract) == Failure(NoSigner) && SignerOf(contract) == Success(1)
  {
  }

  /** A usable payment token: reported, and not the zero address. */
  predicate Configured(paymentToken: Option<Address>)
  {
    paymentToken.Some? && paymentToken.value != ZeroAddress
  }

  /** A new approval is sent exactly when the current allowance is below what is required. */
  predicate NeedsApproval(allowance: nat, required: nat)
  {
    allowance < required
  }

  /**
   * The allowance once the approval step is over: the approved amount when an
   * approval was sent (approve overwrites), the old allowance otherwise. It is
   * the larger of the two, so in both branches it covers what is required.
   */
  function AllowanceAfter(allowance: nat, required: nat): (after: nat)
    ensures after >= required && after >= allowance
    ensures after == allowance || after == required
    ensures NeedsApproval(allowance, required) <==> after != allowance
  {
    if NeedsApproval(allowance, required) then required else allowance
  }

  /**
   * bookApartment as written: the signer lookup throws before the payment token is
   * read, so it rejects without sending anything and without touching the token.
   */
  method BookApartmentAsWritten(token: Erc20Token, contract: ContractHandle, paymentToken: Option<Address>,
                                aid: nat, timestamps: seq<nat>, perNight: nat, securityPercent: nat)
    returns (result: Result<Quote, BookError>, calls: seq<Call>)
    ensures result == Failure(NoSigner) && calls == []
  {
    var user := SignerAsWritten(contract);
    result, calls := Failure(user.error), [];
  }

  /**
   * bookApartment with the guest's address taken from the contract's runner and
   * the rental contract's address from its `target`. A handle without a wallet
   * rejects before anything is sent; otherwise the flow goes on as
   * `BookWithSigner` states.
   */
  method BookApartment(token: Erc20Token, contract: ContractHandle, paymentToken: Option<Address>,
                       aid: nat, timestamps: seq<nat>, perNight: nat, securityPercent: nat)
    returns (result: Result<Quote, BookError>, calls: seq<Call>)
    requires token.Valid()
    modifies token
    ensures token.Valid()
    ensures !contract.runner.Wallet? ==>
      result == Failure(NoSigner) && calls == [] && token.allowed == old(token.allowed)
    ensures contract.runner.Wallet? ==>
      BookedWithSigner(old(token.allowed), token.allowed, contract.runner.address, contract.target,
                       paymentToken, aid, timestamps, perNight, securityPercent, result, calls)
    ensures result.Success? ==>
      && contract.runner.Wallet?
      && token.Allowance(contract.runner.address, contract.target) >= result.value.totalRequired
  {
    var user := SignerOf(contract);
    if user.Failure? {
      return Failure(user.error), [];
    }
    result, calls := BookWithSigner(token, paymentToken, user.value, contract.target,
                                    aid, timestamps, perNight, securityPercent);
  }

  /** The allowance of `user` for `spender` in an allowance table. */
  function AllowanceIn(allowed: map<(Address, Address), nat>, user: Address, spender: Address): (amount: nat)
    ensures (user, spender) in allowed ==> amount == allowed[(user, spender)]
    ensures (user, spender) !in allowed ==> amount == 0
  {
    if (user, spender) in allowed then allowed[(user, spender)] else 0
  }

  /**
   * What happens once the guest's address is known, from the allowance table
   * before (`was`) and after (`now`): a missing or zero payment token stops
   * everything; otherwise the quote is computed, an approve for exactly the
   * required amount is sent iff the allowance is below it (failing if the amount
   * is not a uint256), and the booking call follows.
   */
  ghost predicate BookedWithSigner(was: map<(Address, Address), nat>, now: map<(Address, Address), nat>,
                                   user: Address, rental: Address, paymentToken: Option<Address>,
                                   aid: nat, timestamps: seq<nat>, perNight: nat, securityPercent: nat,
                                   result: Result<Quote, BookError>, calls: seq<Call>)
  {
    if !Configured(paymentToken) then
      result == Failure(PaymentTokenNotConfigured) && calls == [] && now == was
    else
      var q := QuoteFor(perNight, |timestamps|, securityPercent);
      if !NeedsApproval(AllowanceIn(was, user, rental), q.totalRequired) then
        result == Success(q) && calls == [BookNights(aid, timestamps)] && now == was
      else if q.totalRequired >= Uint256Bound then
        result == Failure(ApprovalOutOfRange) && calls == [] && now == was
      else
        && result == Success(q)
        && calls == [Approve(rental, q.totalRequired), BookNights(aid, timestamps)]
        && now == was[(user, rental) := q.totalRequired]
  }

  /**
   * The part of bookApartment after the guest's address `user` and the rental
   * contract's address `rental` are known. `paymentToken`, `perNight` and
   * `securityPercent` are what the rental contract reports; `token` is the payment
   * token's allowance table. The result is the quote it worked with, and `calls`
   * the transactions sent.
   */
  method BookWithSigner(token: Erc20Token, paymentToken: Option<Address>, user: Address, rental: Address,
                        aid: nat, timestamps: seq<nat>, perNight: nat, securityPercent: nat)
    returns (result: Result<Quote, BookError>, calls: seq<Call>)
    requires token.Valid()
    modifies token
    ensures token.Valid()
    ensures BookedWithSigner(old(token.allowed), token.allowed, user, rental, paymentToken,
                             aid, timestamps, perNight, securityPercent, result, calls)
    ensures result.Success? ==>
      && token.Allowance(user, rental) == AllowanceAfter(old(token.Allowance(user, rental)), result.value.totalRequired)
      && token.Allowance(user, rental) >= result.value.totalRequired
  {
    if !Configured(paymentToken) {
      return Failure(PaymentTokenNotConfigured), [];
    }
    var q := QuoteFor(perNight, |timestamps|, securityPercent);
    calls := [];
    var allowance := token.Allowance(user, rental);
    if allowance < q.totalRequired {
      if q.totalRequired >= Uint256Bound {
        return Failure(ApprovalOutOfRange), [];
      }
      token.Approve(user, rental, q.totalRequired);
      calls := calls + [Approve(rental, q.totalRequired)];
    }
    calls := calls + [BookNights(aid, timestamps)];
    result := Success(q);
  }
}
