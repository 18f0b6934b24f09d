/**
 * What the front end and the seed script assume of the chain they talk to:
 * 160-bit account addresses, 256-bit unsigned token amounts, wei-denominated
 * prices, and the allowance bookkeeping of an EIP-20 token.
 */
module Chain {

  /** Number of wei in one whole token (the scale of parseEther/formatEther). */
  const WeiPerEther: nat := 1_000_000_000_000_000_000

  /** 2^256: every uint256 amount is strictly below it. */
  const Uint256Bound: nat := 0x1_0000_0000_0000_0000_0000_0000_0000_0000_0000_0000_0000_0000_0000_0000

  /** An account address: a 20-byte number. */
  newtype Address = x: int | 0 <= x < 0x1_0000_0000_0000_0000_0000_0000_0000_0000_0000

  /** The all-zero address, used on chain for "not set". */
  const ZeroAddress: Address := 0

  /**
   * A token amount as the front end shows it: whole tokens and the wei below one
   * token, the two parts of the decimal string formatEther produces.
   */
  datatype Ether = Ether(whole: nat, fraction: nat)

  /** parseEther on such an amount: back to wei. */
  function ToWei(e: Ether): (wei: nat)
  {
    e.whole * WeiPerEther + e.fraction
  }

  /**
   * formatEther: the wei amount as whole tokens and a fraction below one token.
   * Nothing is lost: converting back gives the same wei.
   */
  function FromWei(wei: nat): (e: Ether)
    ensures e.fraction < WeiPerEther
    ensures ToWei(e) == wei
  {
    Ether(wei / WeiPerEther, wei % WeiPerEther)
  }

  /**
   * What an ethers v6 Contract is connected to (its `runner`): a wallet signer
   * with its address, or a read-only JSON-RPC provider that cannot sign.
   */
  datatype Runner = Wallet(address: Address) | ReadOnly

  /** An ethers v6 Contract handle: its runner and its own address (`target`). */
  datatype ContractHandle = ContractHandle(runner: Runner, target: Address)

  /**
   * The allowance table of an EIP-20 token: `allowed[(owner, spender)]` is how much
   * `spender` may still pull from `owner`. Balances and transfers are not part of
   * this model.
   */
  class Erc20Token {
    var allowed: map<(Address, Address), nat>

    /** Every stored allowance is a uint256. */
    ghost predicate Valid()
      reads this
    {
      forall k :: k in allowed ==> allowed[k] < Uint256Bound
    }

    /** `allowance(owner, spender)`: zero for a pair that never approved anything. */
    function Allowance(owner: Address, spender: Address): (amount: nat)
      reads this
      ensures (owner, spender) !in allowed ==> amount == 0
      ensures (owner, spender) in allowed ==> amount == allowed[(owner, spender)]
    {
      if (owner, spender) in allowed then allowed[(owner, spender)] else 0
    }

    /** A freshly deployed token: nobody has approved anybody. */
    constructor ()
      ensures Valid() && allowed == map[]
    {
      allowed := map[];
    }

    /**
     * `approve(spender, amount)` sent by `owner`: the allowance is overwritten
     * with `amount` (not added to), and every other pair keeps its allowance.
     */
    method Approve(owner: Address, spender: Address, amount: nat)
      requires Valid()
      requires amount < Uint256Bound
      modifies this
      ensures Valid()
      ensures allowed == old(allowed)[(owner, spender) := amount]
      ensures Allowance(owner, spender) == amount
      ensures forall o, s :: (o, s) != (owner, spender) ==> Allowance(o, s) == old(Allowance(o, s))
    {
      allowed := allowed[(owner, spender) := amount];
    }
  }
}
