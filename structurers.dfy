/**
 * The read-side helpers of the front end: each turns the tuples the rental
 * contract returns into the records the pages display, element by element and
 * in order. Number() conversions are kept exact, and prices are split into
 * whole tokens and a wei fraction (formatEther's decimal string is not produced).
 */
module Structurers {
  import opened Chain
  import opened Text

  /** An apartment tuple as the contract returns it. */
  datatype RawApartment = RawApartment(
    id: nat, name: string, description: string, location: string, images: string,
    rooms: nat, price: nat, owner: Address, timestamp: nat, deleted: bool, booked: bool)

  /** A booking tuple as the contract returns it: one night of one apartment. */
  datatype RawBooking = RawBooking(
    id: nat, aid: nat, tenant: Address, date: nat, price: nat, checked: bool, cancelled: bool)

  /** A review tuple as the contract returns it. */
  datatype RawReview = RawReview(id: nat, aid: nat, reviewText: string, owner: Address, timestamp: nat)

  /** An apartment as the pages see it: the image list split out, the price in tokens. */
  datatype Apartment = Apartment(
    id: nat, name: string, owner: Address, description: string, location: string, price: Ether,
    deleted: bool, images: seq<string>, rooms: nat, timestamp: nat, booked: bool)

  datatype Booking = Booking(
    id: nat, aid: nat, tenant: Address, date: nat, price: Ether, checked: bool, cancelled: bool)

  datatype Review = Review(id: nat, aid: nat, text: string, owner: Address, timestamp: nat)

  /** `xs.map(f)`: one output per input, in the same order. */
  function MapSeq<A, B>(f: A -> B, xs: seq<A>): (ys: seq<B>)
    ensures |ys| == |xs|
    ensures forall i :: 0 <= i < |xs| ==> ys[i] == f(xs[i])
  {
    if xs == [] then [] else [f(xs[0])] + MapSeq(f, xs[1..])
  }

  /** Mapping a concatenation maps each half in place, so the order of the input is kept. */
  lemma MapSeqAppend<A, B>(f: A -> B, xs: seq<A>, ys: seq<A>)
    ensures MapSeq(f, xs + ys) == MapSeq(f, xs) + MapSeq(f, ys)
  {
    var l, r := MapSeq(f, xs + ys), MapSeq(f, xs) + MapSeq(f, ys);
    assert |l| == |r|;
    forall i | 0 <= i < |l| ensures l[i] == r[i] {
      if i < |xs| {
        assert (xs + ys)[i] == xs[i];
      } else {
        assert (xs + ys)[i] == ys[i - |xs|];
      }
    }
  }

  /**
   * The `images` field: no images for an empty field, otherwise the pieces between
   * commas. The list is empty exactly when the field is, joining it with "," gives
   * the field back, and it has one more entry than the field has commas.
   */
  function ImagesOf(field: string): (images: seq<string>)
    ensures field == "" <==> images == []
    ensures field != "" ==> Join(images, ",") == field && |images| == multiset(field)[','] + 1
    ensures forall i :: 0 <= i < |images| ==> ',' !in images[i]
  {
    if field == "" then [] else Split(field, ',')
  }

  /** One apartment tuple to its record. */
  function StructureApartment(raw: RawApartment): (a: Apartment)
    ensures a.id == raw.id && a.owner == raw.owner && ToWei(a.price) == raw.price
    ensures a.name == raw.name && a.description == raw.description && a.location == raw.location
    ensures a.deleted == raw.deleted && a.rooms == raw.rooms && a.timestamp == raw.timestamp
    ensures a.booked == raw.booked
    ensures a.images == ImagesOf(raw.images)
  {
    Apartment(raw.id, raw.name, raw.owner, raw.description, raw.location, FromWei(raw.price),
              raw.deleted, ImagesOf(raw.images), raw.rooms, raw.timestamp, raw.booked)
  }

  /** One booking tuple to its record. */
  function StructureBooking(raw: RawBooking): (b: Booking)
    ensures b.id == raw.id && b.aid == raw.aid && b.tenant == raw.tenant && ToWei(b.price) == raw.price
    ensures b.date == raw.date && b.checked == raw.checked && b.cancelled == raw.cancelled
  {
    Booking(raw.id, raw.aid, raw.tenant, raw.date, FromWei(raw.price), raw.checked, raw.cancelled)
  }

  /** One review tuple to its record (the text field is renamed). */
  function StructureReview(raw: RawReview): (r: Review)
    ensures r.text == raw.reviewText && r.owner == raw.owner
    ensures r.id == raw.id && r.aid == raw.aid && r.timestamp == raw.timestamp
  {
    Review(raw.id, raw.aid, raw.reviewText, raw.owner, raw.timestamp)
  }

  /** structureAppartments: every tuple structured, same length, same order. */
  function StructureApartments(raws: seq<RawApartment>): (apartments: seq<Apartment>)
    ensures |apartments| == |raws|
    ensures forall i :: 0 <= i < |raws| ==> apartments[i] == StructureApartment(raws[i])
  {
    MapSeq(StructureApartment, raws)
  }

  /** structuredBookings: every tuple structured, same length, same order. */
  function StructureBookings(raws: seq<RawBooking>): (bookings: seq<Booking>)
    ensures |bookings| == |raws|
    ensures forall i :: 0 <= i < |raws| ==> bookings[i] == StructureBooking(raws[i])
  {
    MapSeq(StructureBooking, raws)
  }

  /** structuredReviews: every tuple structured, same length, same order. */
  function StructureReviews(raws: seq<RawReview>): (reviews: seq<Review>)
    ensures |reviews| == |raws|
    ensures forall i :: 0 <= i < |raws| ==> reviews[i] == StructureReview(raws[i])
  {
    MapSeq(StructureReview, raws)
  }

  /** getApartment: structuring a one-element list and taking its element is structuring the tuple. */
  function GetApartment(raw: RawApartment): (a: Apartment)
    ensures a == StructureApartment(raw)
  {
    StructureApartments([raw])[0]
  }

  /** getApartments agrees with getApartment on every position. */
  lemma GetApartmentsAgreesWithGetApartment(raws: seq<RawApartment>, i: nat)
    requires i < |raws|
    ensures StructureApartments(raws)[i] == GetApartment(raws[i])
  {
  }
}
