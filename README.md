# RentalDapp client logic in Dafny

RentalDapp is a short-term rental marketplace: hosts list apartments, guests
book nights and pay in an EIP-20 payment token, and the rental contract holds
that payment in escrow. The booking, check-in, refund and review rules
themselves live in the on-chain rental contract, which is not part of this
model. The model covers the exact logic in the front end's service layer and in
the seeding script:

- **Escrow** (`escrow.dfy`): the escrow quote computed by the booking page.
  - Rent is the nightly price times the number of requested nights.
  - The security deposit is `rent * percent / 100`, using JavaScript BigInt
    division, which truncates toward zero.
  - The required amount is rent plus deposit.
- **Booking** (`booking.dfy`): the booking flow.
  - It takes the guest's address from the wallet the contract handle is
    connected to (see "## Findings" for the lookup as written).
  - It refuses to go on when the contract reports no payment token, or the
    zero address.
  - It approves exactly the required amount when the current allowance falls
    short, and approves nothing otherwise.
  - It then asks the contract to book the nights.
  - `calls` lists the transactions it sends, in order.
- **Chain** (`chain.dfy`): what the client assumes of the chain.
  - Addresses are 160-bit numbers; token amounts are uint256.
  - A contract handle is connected either to a wallet or to a read-only
    provider, and knows its own address (`target`).
  - formatEther splits a wei amount into whole tokens and a fraction below one
    token, losing nothing.
  - The token keeps an EIP-20 allowance table, and `approve` overwrites an
    entry rather than adding to it.
- **Text** (`text.dfy`): JavaScript `split` with a one-character separator,
  and `join`.
- **Structurers** (`structurers.dfy`): the three read-side `.map` helpers.
  They turn contract tuples into page records, including the comma split of an
  apartment's `images` field. `getApartment` is structuring a one-element list.
- **Seed** (`seed.dfy`): the seeding script.
  - `shuffleArray` is an in-place Fisher–Yates shuffle.
  - `generateFakeApartment` builds listings with sequential ids and five
    pictures each. Each picture is taken from the shared URL array right after
    that array is shuffled.
  - Each listing is booked for three nights: the three days after now.

Randomness (`Math.random`, faker) and the clock are nondeterministic choices
(`:|`) within the ranges the script relies on. `ShuffleArray` records its random
partners in a ghost out-parameter `draws`, so its result is tied to the
specification function `Shuffle(s, draws)`.

The seed joins picture URLs with ", ", but the listing page splits at ",".
`SeededImagesAsDisplayed` shows the effect: every picture after the first
reaches the page with a leading space.

## Model

| member | source | states |
|---|---|---|
| Escrow.TruncDiv | services/Blockchain.jsx:175 | BigInt `/` truncates toward zero: `\|q\|·\|d\| ≤ \|a\| < \|q\|·\|d\| + \|d\|`, and a non-zero quotient is negative exactly when the operands' signs differ |
| Escrow.TruncDivIsFloor | services/Blockchain.jsx:175 | for a non-negative dividend and positive divisor the truncating quotient is the floor |
| Escrow.Deposit | services/Blockchain.jsx:174-175 | the deposit is the largest amount whose hundredfold does not exceed rent × percent |
| Escrow.QuoteFor | services/Blockchain.jsx:169-176 | rent = nightly price × number of timestamps; deposit as above; required = rent + deposit, hence ≥ rent |
| Escrow.DepositAtMostRent | services/Blockchain.jsx:174-175 | with a percent ≤ 100 the deposit never exceeds the rent |
| Escrow.DepositMonotone | services/Blockchain.jsx:175 | the deposit is non-decreasing in rent and in percent |
| Escrow.RequiredMonotone | services/Blockchain.jsx:169-176 | the required amount is non-decreasing in nightly price, night count and percent |
| Escrow.WorkedExample | services/Blockchain.jsx:173-176 | price 100, 3 nights, 5 %: rent 300, deposit 15, required 315 |
| Chain.Erc20Token.Approve | services/Blockchain.jsx:16-17 | `approve` overwrites the (owner, spender) allowance with the amount and leaves every other allowance unchanged |
| Chain.Erc20Token.Allowance | services/Blockchain.jsx:17 | `allowance` is the stored amount, zero for a pair that never approved |
| Booking.AllowanceAfter | services/Blockchain.jsx:181-187 | an approval is sent iff allowance < required; afterwards the allowance is the larger of the two, so it covers the required amount in both branches |
| Booking.SignerAsWritten | services/Blockchain.jsx:157-158 | reading `contract.signer` from an ethers v6 Contract yields no signer, so the address lookup fails for every contract handle |
| Booking.SignerOf | services/Blockchain.jsx:157-158 | the corrected lookup through `contract.runner` succeeds exactly for a wallet-connected handle and gives that wallet's address |
| Booking.SignerLookupDiscrepancy | services/Blockchain.jsx:157-158 | on every wallet-connected handle the lookup as written fails while the corrected one gives the wallet's address |
| Booking.SignerLookupCounterexample | services/Blockchain.jsx:157-158 | concrete instance: wallet 1, rental contract 2 |
| Booking.BookApartmentAsWritten | services/Blockchain.jsx:154-165 | as written, bookApartment rejects with no signer before reading the payment token and sends no transaction |
| Booking.BookApartment | services/Blockchain.jsx:154-191 | corrected bookApartment: no wallet means rejection with no calls and no allowance change; otherwise the guest is the wallet's address, the spender is the contract's `target`, and the flow is `BookWithSigner`; on success the allowance covers the required amount |
| Booking.AllowanceIn | services/Blockchain.jsx:182 | the allowance read from a table, zero for a pair never approved |
| Booking.BookWithSigner | services/Blockchain.jsx:161-191 | missing or zero payment token: fails with no approval and no booking call; otherwise the quote is computed from price, night count and fee; an approve for exactly the required amount is sent iff the allowance is below it (failing if that amount is not a uint256); then the booking call is sent; on success the allowance is `AllowanceAfter` of the old one and covers the required amount |
| Text.Join | scripts/seed.js:47 | `join` of at least one part starts with the first part and is as long as all parts plus one separator between each two; no parts give "" |
| Chain.FromWei | services/Blockchain.jsx:12 | formatEther's whole-token and fractional parts: the fraction is below one token and converting back gives the same wei |
| Text.Split | services/Blockchain.jsx:254 | `split(sep)` gives comma-count + 1 separator-free pieces that join back to the string |
| Text.JoinThenSplit | services/Blockchain.jsx:254 | splitting the join of separator-free pieces gives the pieces back |
| Text.SplitAtSeparator | services/Blockchain.jsx:254 | a separator-free head followed by a separator becomes the first piece |
| Text.SplitWithoutSeparator | services/Blockchain.jsx:254 | a string without the separator is one piece |
| Structurers.ImagesOf | services/Blockchain.jsx:254 | the image list is empty iff the field is empty; otherwise joining it with "," gives the field back, it has comma-count + 1 entries, and no entry contains a comma |
| Structurers.MapSeq | services/Blockchain.jsx:245 | `.map`: same length, element i is f of input i |
| Structurers.MapSeqAppend | services/Blockchain.jsx:244-258 | mapping preserves order: mapping a concatenation is the concatenation of the mapped halves |
| Structurers.StructureApartment | services/Blockchain.jsx:245-257 | every field is kept (name, owner, description, location, deleted, rooms, timestamp, booked, id); the price is the wei amount in token parts; the images field is split as `ImagesOf` states |
| Structurers.StructureBooking | services/Blockchain.jsx:261-268 | id, apartment id, tenant, date, checked and cancelled are kept; the price is the wei amount in token parts |
| Structurers.StructureReview | services/Blockchain.jsx:272-277 | the review text is `reviewText`; id, apartment id, owner and timestamp are kept |
| Structurers.StructureApartments | services/Blockchain.jsx:244-258 | one record per tuple, same length, same order |
| Structurers.StructureBookings | services/Blockchain.jsx:260-269 | one record per tuple, same length, same order |
| Structurers.StructureReviews | services/Blockchain.jsx:271-278 | one record per tuple, same length, same order |
| Structurers.GetApartment | services/Blockchain.jsx:59-63 | element 0 of structuring `[apt]` is the structured `apt` |
| Structurers.GetApartmentsAgreesWithGetApartment | services/Blockchain.jsx:53-63 | the list read and the single read structure each apartment identically |
| Seed.Swap | scripts/seed.js:21 | exchanging two positions keeps the length |
| Seed.SwapPermutes | scripts/seed.js:21 | exchanging two positions keeps the multiset of elements |
| Seed.Shuffle | scripts/seed.js:18-24 | applying in-range draws keeps the length |
| Seed.ShuffleOneMore | scripts/seed.js:19-22 | one more loop step is one more swap, of position i with a partner j ≤ i |
| Seed.ShufflePermutes | scripts/seed.js:18-24 | for any in-range draws the shuffle is a permutation |
| Seed.ShuffleKeepsShortSequences | scripts/seed.js:19 | arrays of length ≤ 1 make no draws and are unchanged |
| Seed.Exchange | scripts/seed.js:21 | the destructuring swap updates the array as `Swap` does |
| Seed.ShuffleArray | scripts/seed.js:18-24 | in place: one draw j ≤ i for every i from length − 1 down to 1; the array becomes `Shuffle` of its old contents, a permutation; arrays of length ≤ 1 are untouched; the same array is returned |
| Seed.GenerateFakeApartment | scripts/seed.js:26-55 | exactly `count` listings with ids 1..count in order; each is owned by the signer, not deleted, priced at half a token, has 2..5 rooms and five pool URLs joined by ", "; the shared URL array ends up a permutation of itself |
| Seed.Padded | scripts/seed.js:47 | every entry gets one leading space |
| Seed.JoinCommaSpace | scripts/seed.js:47 | joining with ", " is joining with "," after padding every part but the first |
| Seed.SeededImagesAsDisplayed | scripts/seed.js:35-47 | the page's split of a seeded images field gives the first URL unchanged and the rest with a leading space |
| Seed.BookingDates | scripts/seed.js:77-78 | three timestamps, each after now, one day apart, strictly increasing, the last now + 3 days |
| Seed.SeedApprovalBelowBookingQuote | scripts/seed.js:76-86 | the seed's approval (one night's price) is below the booking page's quote for the three nights it books; rent is 3 × price |

## Findings

| source | as written | input that shows it | evidently intended | confidence | as-written member | corrected member |
|---|---|---|---|---|---|---|
| services/Blockchain.jsx:157-158 | the guest's signer is read from `contract.signer`; an ethers v6 Contract keeps its signer in `runner` and has no `signer` property, so `signer.getAddress()` throws and bookApartment rejects before the payment-token check and before any transaction | a contract handle connected to wallet 1 (`SignerLookupCounterexample`) | take the signer from `contract.runner` | not executed; rests on the ethers v6 Contract interface | Booking.BookApartmentAsWritten | Booking.BookApartment |

## Left out

- The rental contract's own logic is not part of this model. That covers
  catalog, booking, check-in, refund, reviews, qualified reviewers and
  unavailable dates. Its source is not among the modelled files; the client
  reaches it only through `contract.*` calls. The contract's reads become
  parameters: payment token, nightly price and security fee.
- Whether the contract accepts a booking is not modelled. Neither is a revert
  of the `approve` or booking transaction. `BookApartment` records the booking
  call it sends and stops there.
- Wallet and RPC setup (`getContract`) is network I/O, so it is left out. So
  are `tx.wait()` and the Redux dispatches that refresh page state.
- createApartment, updateApartment, deleteApartment, checkInApartment,
  refundBooking and addReview are left out. Each only forwards to a contract
  call.
- getBookedDates and getSecurityFee are left out. They only convert
  contract numbers with `Number()`.
- `parseEther` (toWei) is represented only as its value: half a token is
  `WeiPerEther / 2` wei. `formatEther` (fromWei) is represented by its whole
  and fractional token parts; the decimal string itself is not produced.
- Wallet connection inside `getContract` is left out: the contract handle
  arrives already connected to a wallet or to a read-only provider.
- Structurers.StructureApartment: `Number()` of a BigInt above 2^53 rounds
  to a double. The model keeps ids, room counts and timestamps exact.
- Structurers.StructureBooking: the same exact `Number()` simplification as
  above.
- Structurers.StructureReview: the same exact `Number()` simplification as
  above.
- Seed.GenerateFakeApartment needs a non-empty URL array. The script always
  passes its five-URL constant. Faker's words and `Date.now` are arbitrary
  values; the random room count is a value in 2..5.
- Seed.ShuffleArray: `Math.random` is a nondeterministic partner in 0..i, not
  a floating-point computation. The model does not claim the shuffle is
  uniform.
- The seed's `createApartments` and its booking transactions are contract
  calls, so they are left out. So are `delay` and reading the contract
  address file. Whether the seed's one-night approval is enough for the
  contract depends on contract code and is not claimed.
- services/provider.jsx, scripts/deploy.js, hardhat.config.js and the
  authentication route are wallet, deployment and tool configuration. They are
  not part of this model.
