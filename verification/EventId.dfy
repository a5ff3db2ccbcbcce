// Event ids: the int64 encoding of (height, location, transaction, event) and its inverse.
// Source: internal/db/eventid.go

/** Go's integer division and remainder, which truncate toward zero. */
module GoInt {

  function Quo(a: int, b: int): int
    requires b > 0
  {
    if a >= 0 then a / b else -((-a) / b)
  }

  function Rem(a: int, b: int): int
    requires b > 0
  {
    if a >= 0 then a % b else -((-a) % b)
  }

  type pos = n: int | 0 < n witness 1

  const MAX_INT64 := 0x7fff_ffff_ffff_ffff
  const MIN_INT64 := -0x8000_0000_0000_0000

  lemma Euclid(x: int, size: pos)
    ensures x == x / size * size + x % size && 0 <= x % size < size
  {
  }

  lemma Distributes(a: int, b: int, size: int)
    ensures a * size - b * size == (a - b) * size
  {
  }

  lemma NoneBetween(k: int, size: pos)
    ensures k * size < size ==> k <= 0
    ensures 0 <= k * size ==> 0 <= k
  {
  }

  /** Among `size` numbers in a row there is a multiple of `size`. */
  lemma MultipleWithin(n: nat, size: pos)
    ensures n - size < n - n % size <= n && (n - n % size) % size == 0
  {
    var h := n - n % size;
    Euclid(n, size);
    Euclid(h, size);
    Distributes(n / size, h / size, size);
    NoneBetween(n / size - h / size, size);
  }
}

module EventIds {
  import opened GoInt

  datatype Location = BeginBlockEvents | TxsResults | EndBlockEvents

  datatype EventId = EventId(height: int, location: Location, txIndex: int, eventIndex: int)

  const HEIGHT_SCALE := 10_000_000_000
  const TYPE_DIGIT := 1_000_000_000
  const TX_INDEX_SCALE := 10_000
  const END_BLOCK_PSEUDO_TX := 999_999

  function AsBigint(e: EventId): int {
    match e.location
    case BeginBlockEvents => e.height * HEIGHT_SCALE + 0 * TYPE_DIGIT + e.eventIndex
    case TxsResults => e.height * HEIGHT_SCALE + 1 * TYPE_DIGIT + e.txIndex * TX_INDEX_SCALE + e.eventIndex
    case EndBlockEvents => e.height * HEIGHT_SCALE + 9 * TYPE_DIGIT + e.eventIndex
  }

  function ParseEventId(eid: int): EventId {
    var height := Quo(eid, HEIGHT_SCALE);
    var rest := Rem(eid, HEIGHT_SCALE);
    if rest < TYPE_DIGIT then
      EventId(height, BeginBlockEvents, 0, Rem(rest, TYPE_DIGIT))
    else if rest < 9 * TYPE_DIGIT then
      EventId(height, TxsResults, Quo(rest - TYPE_DIGIT, TX_INDEX_SCALE), Rem(rest, TX_INDEX_SCALE))
    else
      EventId(height, EndBlockEvents, END_BLOCK_PSEUDO_TX, Rem(rest, TYPE_DIGIT))
  }

  function HeightFromEventId(eid: int): int {
    Quo(eid, HEIGHT_SCALE)
  }

  function HeightToEventId(height: nat): nat {
    height * HEIGHT_SCALE
  }

  /** The documented index bounds; the height bound keeps every id inside int64. */
  predicate WellFormed(e: EventId) {
    && 0 <= e.height < MAX_INT64 / HEIGHT_SCALE
    && match e.location
       case TxsResults => 0 <= e.txIndex < 800_000 && 0 <= e.eventIndex < TX_INDEX_SCALE
       case _ => 0 <= e.eventIndex < TYPE_DIGIT
  }

  function Rank(l: Location): nat {
    match l
    case BeginBlockEvents => 0
    case TxsResults => 1
    case EndBlockEvents => 2
  }

  /** Chain order: by height, then location, then transaction (inside transactions only), then event. */
  predicate Before(a: EventId, b: EventId) {
    if a.height != b.height then a.height < b.height
    else if a.location != b.location then Rank(a.location) < Rank(b.location)
    else if a.location == TxsResults && a.txIndex != b.txIndex then a.txIndex < b.txIndex
    else a.eventIndex < b.eventIndex
  }

  /** What survives an encoding: the transaction index exists only inside transactions. */
  function Canonical(e: EventId): EventId {
    match e.location
    case BeginBlockEvents => e.(txIndex := 0)
    case TxsResults => e
    case EndBlockEvents => e.(txIndex := END_BLOCK_PSEUDO_TX)
  }

  /** Well-formed ids stay inside int64. */
  lemma EncodingFits(e: EventId)
    requires WellFormed(e)
    ensures 0 <= AsBigint(e) <= MAX_INT64
  {
  }

  /** The encoding is an order embedding, and so injective up to Canonical. */
  lemma EncodingEmbedsOrder(a: EventId, b: EventId)
    requires WellFormed(a) && WellFormed(b)
    ensures AsBigint(a) < AsBigint(b) <==> Before(a, b)
    ensures AsBigint(a) == AsBigint(b) <==> Canonical(a) == Canonical(b)
  {
  }

  /** Parsing undoes encoding. */
  lemma ParseAfterEncode(e: EventId)
    requires WellFormed(e)
    ensures ParseEventId(AsBigint(e)) == Canonical(e)
    ensures HeightFromEventId(AsBigint(e)) == e.height
  {
  }

  /**
   * Encoding undoes parsing on exactly these ids. The fuzz test in eventid_test.go claims it for
   * every int64; it holds for all non-negative ones, and fails for instance at -TYPE_DIGIT.
   */
  lemma EncodeAfterParse(eid: int)
    ensures AsBigint(ParseEventId(eid)) == eid <==> -TYPE_DIGIT < Rem(eid, HEIGHT_SCALE)
    ensures 0 <= eid ==> AsBigint(ParseEventId(eid)) == eid
  {
  }

  lemma EncodeAfterParseFails()
    ensures MIN_INT64 <= -TYPE_DIGIT && AsBigint(ParseEventId(-TYPE_DIGIT)) != -TYPE_DIGIT
  {
    EncodeAfterParse(-TYPE_DIGIT);
  }

  /** `event_id < HeightToEventId(h)` and `event_id > HeightToEventId(h)` are tests on the height. */
  lemma HeightFilters(e: EventId, h: nat)
    requires WellFormed(e)
    ensures AsBigint(e) < HeightToEventId(h) <==> e.height < h
    ensures (e.location == BeginBlockEvents ==> 1 <= e.eventIndex) ==>
              (HeightToEventId(h) < AsBigint(e) <==> h <= e.height)
  {
  }
}
