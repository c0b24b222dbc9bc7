/** Human-readable order numbers, `INV/<yyyymmdd>/RK/<random><sequence>`.
    The eight-digit random part adds entropy; uniqueness comes from the
    sequence value taken from the "order" numbering counter. */
module OrderNumber {
  import opened Common
  import opened Decimal

  /** A calendar date as the clock's local-time formatting yields it. */
  datatype Date = Date(year: int, month: int, day: int)

  /** The `20060102` layout renders years 0..9999 in exactly four digits. */
  predicate ValidDate(d: Date) {
    0 <= d.year <= 9999 && 1 <= d.month <= 12 && 1 <= d.day <= 31
  }

  /** The range of `rand.Intn(90000000) + 10000000`. */
  predicate ValidRandom(r: int) {
    10000000 <= r <= 99999999
  }

  datatype Parts = Parts(date: Date, random: int, sequence: int)

  predicate ValidParts(p: Parts) {
    ValidDate(p.date) && ValidRandom(p.random)
  }

  const Prefix: string := "INV"
  const StoreCode: string := "RK"

  /** `now.Format("20060102")`. */
  function DateStamp(d: Date): (s: string)
    requires ValidDate(d)
    ensures |s| == 8
    ensures AllDigits(s)
  {
    FixedDigits(d.year, 4) + FixedDigits(d.month, 2) + FixedDigits(d.day, 2)
  }

  /** `fmt.Sprintf("%s/%s/%s/%d%d", prefix, date, store, random, sequence)`. */
  function Format(p: Parts): (s: string)
    requires ValidParts(p)
    ensures 25 <= |s|
    ensures s[..4] == "INV/" && s[12..16] == "/RK/"
    ensures AllDigits(s[4..12]) && AllDigits(s[16..24])
  {
    DigitsLength(p.random, 7);
    var s := Prefix + "/" + DateStamp(p.date) + "/" + StoreCode + "/" + Digits(p.random) + IntToString(p.sequence);
    assert s[4..12] == DateStamp(p.date);
    assert s[16..24] == Digits(p.random);
    s
  }

  /** Splits an order number back into its parts. */
  function Parse(s: string): (r: Option<Parts>)
  {
    if |s| < 25 || s[..4] != "INV/" || s[12..16] != "/RK/" then None
    else if !(AllDigits(s[4..8]) && AllDigits(s[8..10]) && AllDigits(s[10..12]) && AllDigits(s[16..24])) then None
    else match ParseInt(s[24..])
      case None => None
      case Some(n) =>
        Some(Parts(
          Date(ParseDigits(s[4..8]), ParseDigits(s[8..10]), ParseDigits(s[10..12])),
          ParseDigits(s[16..24]),
          n))
  }

  lemma DateStampRoundTrip(d: Date)
    requires ValidDate(d)
    ensures var t := DateStamp(d);
      ParseDigits(t[..4]) == d.year && ParseDigits(t[4..6]) == d.month && ParseDigits(t[6..]) == d.day
  {
    var t := DateStamp(d);
    assert t[..4] == FixedDigits(d.year, 4);
    assert t[4..6] == FixedDigits(d.month, 2);
    assert t[6..] == FixedDigits(d.day, 2);
    assert Pow10(2) == 100 && Pow10(4) == 10000;
    ParseFixedDigits(d.year, 4);
    ParseFixedDigits(d.month, 2);
    ParseFixedDigits(d.day, 2);
  }

  /** Where each part sits in a formatted order number. */
  lemma FormatLayout(p: Parts)
    requires ValidParts(p)
    ensures var s := Format(p); var t := DateStamp(p.date);
      && s[4..8] == t[..4] && s[8..10] == t[4..6] && s[10..12] == t[6..]
      && s[16..24] == Digits(p.random) && s[24..] == IntToString(p.sequence)
  {
    var s := Format(p);
    var t := DateStamp(p.date);
    DigitsLength(p.random, 7);
    var head := "INV/" + t + "/RK/" + Digits(p.random);
    assert |head| == 24 && s == head + IntToString(p.sequence);
    assert s[..24] == head;
  }

  /** Every order number reads back to the parts it was formatted from. */
  lemma ParseFormat(p: Parts)
    requires ValidParts(p)
    ensures Parse(Format(p)) == Some(p)
  {
    FormatLayout(p);
    DateStampRoundTrip(p.date);
    ParseDigitsOfDigits(p.random);
    IntToStringRoundTrip(p.sequence);
  }

  /** The number determines date, random part and sequence value. */
  lemma FormatInjective(p: Parts, q: Parts)
    requires ValidParts(p) && ValidParts(q)
    requires Format(p) == Format(q)
    ensures p == q
  {
    ParseFormat(p);
    ParseFormat(q);
  }

  /** Two orders numbered from different counter values never share a
      number, whatever their dates and random parts. */
  lemma DistinctSequencesDistinctNumbers(p: Parts, q: Parts)
    requires ValidParts(p) && ValidParts(q)
    requires p.sequence != q.sequence
    ensures Format(p) != Format(q)
  {
    if Format(p) == Format(q) {
      FormatInjective(p, q);
    }
  }
}
