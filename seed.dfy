/**
 * The seeding script: fake listings with sequential ids and five pictures each,
 * drawn by repeatedly shuffling one shared list of picture URLs in place, and
 * the three nights it books for every listing. Faker's words, Math.random and
 * Date.now are nondeterministic choices within the ranges the script relies on.
 */
module Seed {
  import opened Chain
  import opened Text
  import opened Escrow
  import Structurers

  /** Pictures per listing. */
  const ImagesPerApartment: nat := 5
  /** Every listing costs half a token per night, in wei. */
  const FixedPriceWei: nat := WeiPerEther / 2
  /** faker.number.int({ min: 2, max: 5 }) for the room count. */
  const MinRooms: nat := 2
  const MaxRooms: nat := 5
  const SecondsPerDay: nat := 86400
  /** Nights booked for every seeded listing. */
  const NightsBooked: nat := 3

  /** A generated listing. */
  datatype FakeApartment = FakeApartment(
    id: nat, name: string, description: string, location: string, price: nat,
    images: string, rooms: nat, owner: Address, timestamp: nat, deleted: bool)

  /* ---------------- shuffleArray ---------------- */

  /** The sequence with positions `i` and `j` exchanged. */
  function Swap<T>(s: seq<T>, i: nat, j: nat): (t: seq<T>)
    requires i < |s| && j < |s|
    ensures |t| == |s|
  {
    s[i := s[j]][j := s[i]]
  }

  /** A swap only reorders. */
  lemma SwapPermutes<T>(s: seq<T>, i: nat, j: nat)
    requires i < |s| && j < |s|
    ensures multiset(Swap(s, i, j)) == multiset(s)
  {
  }

  /**
   * Random draws a shuffle may have made so far on `n` elements: the draw of step
   * `k` is the partner of position `n - 1 - k`, so it lies between 0 and that position.
   */
  ghost predicate DrawsInRange(draws: seq<nat>, n: nat)
  {
    |draws| <= n && forall k :: 0 <= k < |draws| ==> draws[k] <= n - 1 - k
  }

  /** The draws of a whole shuffle: one for every position from the last down to 1. */
  ghost predicate CompleteDraws(draws: seq<nat>, n: nat)
  {
    DrawsInRange(draws, n) && |draws| == (if n == 0 then 0 else n - 1)
  }

  /** The sequence after the swaps the given draws call for, in the order they are made. */
  ghost function Shuffle<T>(s: seq<T>, draws: seq<nat>): (t: seq<T>)
    requires DrawsInRange(draws, |s|)
    ensures |t| == |s|
    decreases |draws|
  {
    if draws == [] then s
    else
      var last := |draws| - 1;
      Swap(Shuffle(s, draws[..last]), |s| - 1 - last, draws[last])
  }

  /** One more draw for the next position down is one more swap. */
  lemma {:induction false} ShuffleOneMore<T>(s: seq<T>, draws: seq<nat>, j: nat)
    requires DrawsInRange(draws, |s|) && |draws| < |s| && j <= |s| - 1 - |draws|
    ensures DrawsInRange(draws + [j], |s|)
    ensures Shuffle(s, draws + [j]) == Swap(Shuffle(s, draws), |s| - 1 - |draws|, j)
  {
    var more := draws + [j];
    forall k | 0 <= k < |more| ensures more[k] <= |s| - 1 - k {
      if k < |draws| {
        assert more[k] == draws[k];
      }
    }
    assert more[..|draws|] == draws;
  }

  /** Whatever the draws, a shuffle is a permutation. */
  lemma {:induction false} ShufflePermutes<T>(s: seq<T>, draws: seq<nat>)
    requires DrawsInRange(draws, |s|)
    ensures multiset(Shuffle(s, draws)) == multiset(s)
    decreases |draws|
  {
    if draws != [] {
      var last := |draws| - 1;
      ShufflePermutes(s, draws[..last]);
      SwapPermutes(Shuffle(s, draws[..last]), |s| - 1 - last, draws[last]);
    }
  }

  /** Sequences of at most one element make no draws and stay as they are. */
  lemma ShuffleKeepsShortSequences<T>(s: seq<T>, draws: seq<nat>)
    requires |s| <= 1 && CompleteDraws(draws, |s|)
    ensures Shuffle(s, draws) == s
  {
  }

  /** `[array[i], array[j]] = [array[j], array[i]]` */
  method Exchange<T>(a: array<T>, i: nat, j: nat)
    requires i < a.Length && j < a.Length
    modifies a
    ensures a[..] == Swap(old(a[..]), i, j)
  {
    a[i], a[j] := a[j], a[i];
  }

  /**
   * shuffleArray: Fisher-Yates in place, from the last position down to 1, each
   * swapped with a random position at or below it. It returns the same array;
   * `draws` records the random partners.
   */
  method ShuffleArray<T>(a: array<T>) returns (r: array<T>, ghost draws: seq<nat>)
    modifies a
    ensures r == a
    ensures CompleteDraws(draws, a.Length)
    ensures a[..] == Shuffle(old(a[..]), draws)
    ensures multiset(a[..]) == multiset(old(a[..]))
    ensures a.Length <= 1 ==> a[..] == old(a[..])
  {
    var i := a.Length - 1;
    draws := [];
    while i > 0
      invariant i == a.Length - 1 - |draws|
      invariant a.Length == 0 || i >= 0
      invariant DrawsInRange(draws, a.Length)
      invariant a[..] == Shuffle(old(a[..]), draws)
      decreases i
    {
      var j :| 0 <= j <= i;
      Exchange(a, i, j);
      ShuffleOneMore(old(a[..]), draws, j);
      draws := draws + [j];
      i := i - 1;
    }
    assert |draws| == (if a.Length == 0 then 0 else a.Length - 1);
    if a.Length <= 1 {
      assert draws == [];
    }
    ShufflePermutes(old(a[..]), draws);
    r := a;
  }

  /* ---------------- generateFakeApartment ---------------- */

  /** The images field of a listing: `ImagesPerApartment` URLs from `pool`, joined by ", ". */
  ghost predicate SeededImages(images: string, pool: multiset<string>)
  {
    exists picks: seq<string> ::
      && |picks| == ImagesPerApartment
      && (forall p :: p in picks ==> p in pool)
      && images == Join(picks, ", ")
  }

  /** What every generated listing shares: owner, price, room range, live, pictures from the pool. */
  ghost predicate Seeded(a: FakeApartment, signer: Address, pool: multiset<string>)
  {
    && a.owner == signer
    && !a.deleted
    && a.price == FixedPriceWei
    && MinRooms <= a.rooms <= MaxRooms
    && SeededImages(a.images, pool)
  }

  /**
   * generateFakeApartment: `count` listings with ids 1..count in order. Each
   * picture is the first element of the shared URL array right after shuffling
   * it, so the array ends up permuted, never changed in content.
   */
  method GenerateFakeApartment(count: nat, signer: Address, imagesUrls: array<string>)
    returns (apartments: seq<FakeApartment>)
    requires imagesUrls.Length > 0
    modifies imagesUrls
    ensures |apartments| == count
    ensures forall i :: 0 <= i < count ==> apartments[i].id == i + 1
    ensures forall a :: a in apartments ==> Seeded(a, signer, old(multiset(imagesUrls[..])))
    ensures multiset(imagesUrls[..]) == old(multiset(imagesUrls[..]))
  {
    ghost var pool := multiset(imagesUrls[..]);
    apartments := [];
    for i := 0 to count
      invariant |apartments| == i
      invariant forall k :: 0 <= k < i ==> apartments[k].id == k + 1
      invariant forall a :: a in apartments ==> Seeded(a, signer, pool)
      invariant multiset(imagesUrls[..]) == pool
    {
      var id := i + 1;
      var name: string :| true;
      var description: string :| true;
      var location: string :| true;
      var rooms: nat :| MinRooms <= rooms <= MaxRooms;
      var images: seq<string> := [];
      for j := 0 to ImagesPerApartment
        invariant |images| == j
        invariant forall p :: p in images ==> p in pool
        invariant multiset(imagesUrls[..]) == pool
      {
        var shuffled;
        ghost var draws;
        shuffled, draws := ShuffleArray(imagesUrls);
        assert shuffled[0] == imagesUrls[..][0];
        images := images + [shuffled[0]];
      }
      var timestamp: nat :| true;
      var apartment := FakeApartment(id, name, description, location, FixedPriceWei,
                                     Join(images, ", "), rooms, signer, timestamp, false);
      assert SeededImages(apartment.images, pool);
      apartments := apartments + [apartment];
    }
  }

  /** Every URL with one leading space, as a ", " join leaves them after a split at ",". */
  function Padded(parts: seq<string>): (padded: seq<string>)
    ensures |padded| == |parts|
    ensures forall k :: 0 <= k < |parts| ==> padded[k] == " " + parts[k]
  {
    if parts == [] then [] else [" " + parts[0]] + Padded(parts[1..])
  }

  lemma {:induction false} JoinCommaSpace(parts: seq<string>)
    requires |parts| >= 1
    ensures Join(parts, ", ") == Join([parts[0]] + Padded(parts[1..]), ",")
    decreases |parts|
  {
    if |parts| > 1 {
      var tail := parts[1..];
      JoinCommaSpace(tail);
      assert [tail[0]] + Padded(tail[1..]) == [tail[0]] + Padded(parts[2..]);
      JoinExtendFirst(' ', [tail[0]] + Padded(tail[1..]), ",");
      assert [[' '] + tail[0]] + Padded(tail[1..]) == Padded(tail);
      JoinCons(parts[0], Padded(tail), ",");
    }
  }

  /**
   * What the listing page makes of a seeded images field: the first URL as it was,
   * every later one with a leading space (the script joins with ", " but the page
   * splits at ","), as long as no URL contains a comma.
   */
  lemma SeededImagesAsDisplayed(picks: seq<string>)
    requires |picks| >= 2
    requires forall i :: 0 <= i < |picks| ==> ',' !in picks[i]
    ensures Structurers.ImagesOf(Join(picks, ", ")) == [picks[0]] + Padded(picks[1..])
  {
    var parts := [picks[0]] + Padded(picks[1..]);
    JoinCommaSpace(picks);
    JoinCons(picks[0], picks[1..], ", ");
    assert |Join(picks, ", ")| > 0;
    forall i | 0 <= i < |parts| ensures ',' !in parts[i] {
      if i > 0 {
        assert parts[i] == " " + picks[i];
      }
    }
    JoinThenSplit(parts, ',');
  }

  /* ---------------- bookApartments ---------------- */

  /**
   * The nights the script books: the three days after `now` (seconds), one day
   * apart, strictly increasing, all after `now`.
   */
  function BookingDates(now: nat): (dates: seq<nat>)
    ensures |dates| == NightsBooked
    ensures forall k :: 0 <= k < |dates| ==> dates[k] > now
    ensures forall k :: 0 <= k < |dates| - 1 ==> dates[k + 1] == dates[k] + SecondsPerDay
    ensures forall i, j :: 0 <= i < j < |dates| ==> dates[i] < dates[j]
    ensures dates[|dates| - 1] == now + NightsBooked * SecondsPerDay
  {
    [now + SecondsPerDay, now + 2 * SecondsPerDay, now + 3 * SecondsPerDay]
  }

  /**
   * The script approves one night's price before booking three nights: for a
   * listing with a price, that is below the amount the booking page would have
   * the guest approve for the same three nights.
   */
  lemma SeedApprovalBelowBookingQuote(price: nat, percent: nat, now: nat)
    requires price > 0
    ensures QuoteFor(price, |BookingDates(now)|, percent).totalRent == NightsBooked * price
    ensures price < QuoteFor(price, |BookingDates(now)|, percent).totalRequired
  {
  }
}
