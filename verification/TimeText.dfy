/** The ledger's time text (_utc_iso in infrastructure/cost.py): UTC instants as ISO-8601 text. */
module TimeText {
  import opened Basics
  import opened Texts
  import opened Digits

  /** A UTC instant by its calendar fields, most significant first. */
  datatype Instant = Instant(year: nat, month: nat, day: nat, hour: nat, minute: nat, second: nat, micro: nat)

  /** The ranges of the fields; how many days a month has is not needed. */
  predicate InRange(t: Instant) {
    1 <= t.year <= 9999 && 1 <= t.month <= 12 && 1 <= t.day <= 31 && t.hour < 24 && t.minute < 60 && t.second < 60 && t.micro < 1000000
  }

  type Utc = t: Instant | InRange(t) witness Instant(1, 1, 1, 0, 0, 0, 0)

  /** The order of instants in one zone: field by field. */
  predicate Before(a: Instant, b: Instant) {
    if a.year != b.year then a.year < b.year
    else if a.month != b.month then a.month < b.month
    else if a.day != b.day then a.day < b.day
    else if a.hour != b.hour then a.hour < b.hour
    else if a.minute != b.minute then a.minute < b.minute
    else if a.second != b.second then a.second < b.second
    else a.micro < b.micro
  }

  lemma Widths()
    ensures Pow10(2) == 100 && Pow10(4) == 10000 && Pow10(6) == 1000000
  {
    assert Pow10(1) == 10 && Pow10(3) == 1000 && Pow10(5) == 100000;
  }

  /** The fraction is left out when it is zero, so texts differ in length. */
  function Tail(micro: nat): string
    requires micro < 1000000
  {
    Widths();
    (if micro == 0 then "" else "." + Field(micro, 6)) + "+00:00"
  }

  function Seconds(t: Utc): string {
    Widths();
    Field(t.second, 2) + Tail(t.micro)
  }

  function Minutes(t: Utc): string {
    Widths();
    Field(t.minute, 2) + (":" + Seconds(t))
  }

  function Hours(t: Utc): string {
    Widths();
    Field(t.hour, 2) + (":" + Minutes(t))
  }

  function Days(t: Utc): string {
    Widths();
    Field(t.day, 2) + ("T" + Hours(t))
  }

  function Months(t: Utc): string {
    Widths();
    Field(t.month, 2) + ("-" + Days(t))
  }

  /** isoformat() of an instant in UTC. */
  function Iso(t: Utc): string {
    Widths();
    Field(t.year, 4) + ("-" + Months(t))
  }

  /** '+' sorts below '.', so a whole second precedes every fraction of it. */
  lemma TailOrder(a: nat, b: nat)
    requires a < 1000000 && b < 1000000
    ensures Below(Tail(a), Tail(b)) <==> a < b
  {
    Widths();
    var zone := "+00:00";
    if a == 0 && b == 0 {
      Trichotomy(Tail(a), Tail(b));
    } else if a == 0 {
      WholeBelowFraction(zone, Field(b, 6) + zone);
    } else if b == 0 {
      WholeBelowFraction(zone, Field(a, 6) + zone);
      Trichotomy(Tail(a), Tail(b));
    } else {
      AfterPrefix(".", Field(a, 6) + zone, Field(b, 6) + zone);
      FieldThenRest(a, b, 6, zone, zone);
      Trichotomy(zone, zone);
      assert Tail(a) == "." + (Field(a, 6) + zone) && Tail(b) == "." + (Field(b, 6) + zone);
    }
  }

  lemma WholeBelowFraction(zone: string, rest: string)
    requires zone != "" && zone[0] == '+'
    ensures Below("" + zone, "." + rest)
  {
    assert ("" + zone)[0] == '+' && ("." + rest)[0] == '.';
  }

  /** One field, one separator: equal fields pass the comparison on. */
  lemma FieldStep(m: nat, n: nat, separator: string, a: string, b: string)
    requires m < 100 && n < 100
    ensures Pow10(2) == 100
    ensures Below(Field(m, 2) + (separator + a), Field(n, 2) + (separator + b)) <==> m < n || (m == n && Below(a, b))
  {
    Widths();
    FieldThenRest(m, n, 2, separator + a, separator + b);
    AfterPrefix(separator, a, b);
  }

  /** The texts compare exactly as the instants do, although their lengths differ. */
  lemma IsoKeepsOrder(a: Utc, b: Utc)
    ensures Below(Iso(a), Iso(b)) <==> Before(a, b)
  {
    Widths();
    hide Below, Field, Pow10, Tail;
    TailOrder(a.micro, b.micro);
    FieldThenRest(a.second, b.second, 2, Tail(a.micro), Tail(b.micro));
    FieldStep(a.minute, b.minute, ":", Seconds(a), Seconds(b));
    FieldStep(a.hour, b.hour, ":", Minutes(a), Minutes(b));
    FieldStep(a.day, b.day, "T", Hours(a), Hours(b));
    FieldStep(a.month, b.month, "-", Days(a), Days(b));
    FieldThenRest(a.year, b.year, 4, "-" + Months(a), "-" + Months(b));
    AfterPrefix("-", Months(a), Months(b));
  }

  /** Different instants have different texts. */
  lemma IsoInjective(a: Utc, b: Utc)
    requires Iso(a) == Iso(b)
    ensures a == b
  {
    IsoKeepsOrder(a, b);
    IsoKeepsOrder(b, a);
    Trichotomy(Iso(a), Iso(b));
  }

  // -- reading the text back ---------------------------------------------------------------

  function NumberAt(text: string, at: nat, w: nat): Option<nat> {
    if at + w <= |text| && forall i :: at <= i < at + w ==> IsDigit(text[i]) then Some(Value(text[at..at + w])) else None
  }

  /** fromisoformat() on what isoformat() writes. */
  function Parsed(text: string): Option<Utc> {
    var year, month, day := NumberAt(text, 0, 4), NumberAt(text, 5, 2), NumberAt(text, 8, 2);
    var hour, minute, second := NumberAt(text, 11, 2), NumberAt(text, 14, 2), NumberAt(text, 17, 2);
    var micro := if |text| > 19 && text[19] == '.' then NumberAt(text, 20, 6) else Some(0);
    if year.None? || month.None? || day.None? || hour.None? || minute.None? || second.None? || micro.None? then None
    else
      var t := Instant(year.value, month.value, day.value, hour.value, minute.value, second.value, micro.value);
      if InRange(t) then Some(t) else None
  }

  /** A field found after a prefix of known length. */
  lemma NumberAfter(p: string, n: nat, w: nat, rest: string)
    requires n < Pow10(w)
    ensures NumberAt(p + Field(n, w) + rest, |p|, w) == Some(n)
  {
    var text := p + Field(n, w) + rest;
    assert text[|p|..|p| + w] == Field(n, w);
    forall i | |p| <= i < |p| + w
      ensures IsDigit(text[i])
    {
      assert text[i] == Field(n, w)[i - |p|];
    }
    FieldReadsBack(n, w);
  }

  /** The text up to and including each separator. */
  function ToMonth(t: Utc): string { Widths(); Field(t.year, 4) + "-" }

  function ToDay(t: Utc): string { Widths(); ToMonth(t) + Field(t.month, 2) + "-" }

  function ToHour(t: Utc): string { Widths(); ToDay(t) + Field(t.day, 2) + "T" }

  function ToMinute(t: Utc): string { Widths(); ToHour(t) + Field(t.hour, 2) + ":" }

  function ToSecond(t: Utc): string { Widths(); ToMinute(t) + Field(t.minute, 2) + ":" }

  lemma PrefixLengths(t: Utc)
    ensures |ToMonth(t)| == 5 && |ToDay(t)| == 8 && |ToHour(t)| == 11 && |ToMinute(t)| == 14 && |ToSecond(t)| == 17
  {
    Widths();
  }

  lemma Regroup(p: string, f: string, separator: string, rest: string)
    ensures p + (f + (separator + rest)) == (p + f + separator) + rest
    ensures p + (f + (separator + rest)) == p + f + (separator + rest)
  {
  }

  /** The same text, split at each field. */
  lemma Splits(t: Utc)
    ensures Pow10(2) == 100 && Pow10(4) == 10000
    ensures Iso(t) == "" + Field(t.year, 4) + ("-" + Months(t))
    ensures Iso(t) == ToMonth(t) + Field(t.month, 2) + ("-" + Days(t))
    ensures Iso(t) == ToDay(t) + Field(t.day, 2) + ("T" + Hours(t))
    ensures Iso(t) == ToHour(t) + Field(t.hour, 2) + (":" + Minutes(t))
    ensures Iso(t) == ToMinute(t) + Field(t.minute, 2) + (":" + Seconds(t))
    ensures Iso(t) == ToSecond(t) + Field(t.second, 2) + Tail(t.micro)
  {
    Widths();
    hide Tail, Pow10, Field;
    Regroup("", Field(t.year, 4), "-", Months(t));
    assert Iso(t) == ToMonth(t) + Months(t);
    Regroup(ToMonth(t), Field(t.month, 2), "-", Days(t));
    assert Iso(t) == ToDay(t) + Days(t);
    Regroup(ToDay(t), Field(t.day, 2), "T", Hours(t));
    assert Iso(t) == ToHour(t) + Hours(t);
    Regroup(ToHour(t), Field(t.hour, 2), ":", Minutes(t));
    assert Iso(t) == ToMinute(t) + Minutes(t);
    Regroup(ToMinute(t), Field(t.minute, 2), ":", Seconds(t));
    assert Iso(t) == ToSecond(t) + Seconds(t);
  }

  lemma FractionAfter(p: string, micro: nat)
    requires |p| == 19 && micro < 1000000
    ensures var text := p + Tail(micro);
            (if |text| > 19 && text[19] == '.' then NumberAt(text, 20, 6) else Some(0)) == Some(micro)
  {
    Widths();
    if micro == 0 {
      assert (p + Tail(micro))[19] == Tail(micro)[0];
    } else {
      assert p + Tail(micro) == (p + ".") + Field(micro, 6) + "+00:00";
      NumberAfter(p + ".", micro, 6, "+00:00");
    }
  }

  lemma DateRead(t: Utc)
    ensures NumberAt(Iso(t), 0, 4) == Some(t.year) && NumberAt(Iso(t), 5, 2) == Some(t.month) && NumberAt(Iso(t), 8, 2) == Some(t.day)
  {
    Splits(t);
    PrefixLengths(t);
    hide Tail, Pow10, NumberAt, Iso, Months, Days, Hours, Field, ToMonth, ToDay;
    NumberAfter("", t.year, 4, "-" + Months(t));
    NumberAfter(ToMonth(t), t.month, 2, "-" + Days(t));
    NumberAfter(ToDay(t), t.day, 2, "T" + Hours(t));
  }

  lemma TimeRead(t: Utc)
    ensures NumberAt(Iso(t), 11, 2) == Some(t.hour) && NumberAt(Iso(t), 14, 2) == Some(t.minute) && NumberAt(Iso(t), 17, 2) == Some(t.second)
    ensures (if |Iso(t)| > 19 && Iso(t)[19] == '.' then NumberAt(Iso(t), 20, 6) else Some(0)) == Some(t.micro)
  {
    Splits(t);
    PrefixLengths(t);
    assert |ToSecond(t) + Field(t.second, 2)| == 19;
    hide Tail, Pow10, NumberAt, Iso, Minutes, Seconds, Field, ToHour, ToMinute, ToSecond;
    NumberAfter(ToHour(t), t.hour, 2, ":" + Minutes(t));
    NumberAfter(ToMinute(t), t.minute, 2, ":" + Seconds(t));
    NumberAfter(ToSecond(t), t.second, 2, Tail(t.micro));
    FractionAfter(ToSecond(t) + Field(t.second, 2), t.micro);
  }

  /** Reading back what was written is the identity. */
  lemma ParsedIso(t: Utc)
    ensures Parsed(Iso(t)) == Some(t)
  {
    DateRead(t);
    TimeRead(t);
    hide Iso, NumberAt;
  }

  // -- the shape of the text, and the order of instants as a number ---------------------------

  lemma SeparatorAt(p: string, f: string, rest: string)
    requires rest != ""
    ensures |p + f + rest| > |p| + |f| && (p + f + rest)[|p| + |f|] == rest[0]
  {
  }

  lemma TailReads(p: string, micro: nat)
    requires |p| == 19 && micro < 1000000
    ensures var text := p + Tail(micro);
            && |text| == (if micro == 0 then 25 else 32) && text[|text| - 6..] == "+00:00"
            && text[19] == (if micro == 0 then '+' else '.')
  {
    Widths();
    hide Pow10;
  }

  /** Where isoformat() puts separators, fraction and zone; a zero fraction is left out. */
  lemma IsoReads(t: Utc)
    ensures var text := Iso(t);
            && |text| == (if t.micro == 0 then 25 else 32) && text[|text| - 6..] == "+00:00"
            && text[4] == '-' && text[7] == '-' && text[10] == 'T' && text[13] == ':' && text[16] == ':'
            && text[19] == (if t.micro == 0 then '+' else '.')
  {
    Splits(t);
    PrefixLengths(t);
    assert |ToSecond(t) + Field(t.second, 2)| == 19;
    hide Tail, Pow10, Iso, Months, Days, Hours, Minutes, Seconds, Field, ToMonth, ToDay, ToHour, ToMinute, ToSecond;
    TailReads(ToSecond(t) + Field(t.second, 2), t.micro);
    SeparatorAt("", Field(t.year, 4), "-" + Months(t));
    SeparatorAt(ToMonth(t), Field(t.month, 2), "-" + Days(t));
    SeparatorAt(ToDay(t), Field(t.day, 2), "T" + Hours(t));
    SeparatorAt(ToHour(t), Field(t.hour, 2), ":" + Minutes(t));
    SeparatorAt(ToMinute(t), Field(t.minute, 2), ":" + Seconds(t));
  }

  /** Microseconds, giving every month 32 days: enough to order instants. */
  function Count(t: Instant): nat {
    ((((((t.year * 12 + t.month) * 32 + t.day) * 24 + t.hour) * 60 + t.minute) * 60 + t.second) * 1000000) + t.micro
  }

  /** One instant is before another exactly when it counts less. */
  lemma BeforeCounts(a: Utc, b: Utc)
    ensures Before(a, b) <==> Count(a) < Count(b)
  {
  }
}
