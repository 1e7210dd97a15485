/** The remote-store client of the inventory app (src/servises/api.ts):
    reading a product record, and creating a stock adjustment record behind
    a cache that refuses the same (type, product, quantity) for five minutes.
    The store itself is outside the model: what it answers is an input. */
module Api {
  import opened Wrappers
  import opened Numerals

  /** The two kinds of stock adjustment. */
  datatype OpType = Writeoff | Supply

  /** The spelling of the operation type that goes into keys and hashes. */
  function TypeName(t: OpType): (s: string)
    ensures |s| > 0 && s[0] == (if t == Writeoff then 'w' else 's')
  {
    match t
    case Writeoff => "writeoff"
    case Supply => "supply"
  }

  /** How long, in milliseconds, an accepted operation blocks its repeat. */
  const CooldownMs: int := 300000

  const CooldownMessage: string := "Повторная операция заблокирована. Подождите 5 минут."

  const WriteoffsTable: string := "Списания"
  const SuppliesTable: string := "Поставки"

  /** A value thrown by a failed call: an `Error` carrying its message, or
      anything else. */
  datatype Thrown = ErrorThrown(message: string) | ValueThrown

  /** A record of the products table as the store returns it; a field the
      record does not have is `None`. */
  datatype StoreRecord = StoreRecord(id: string, name: Option<string>, stock: Option<int>)

  datatype Product = Product(id: string, name: string, stock: int)

  /** `getProduct`: `found` is what the store's lookup of the id gave (`None`
      when it failed, which the source reports as `null`). Missing fields are
      defaulted with JavaScript's `||`, which also replaces a falsy value by
      the default; for these two fields that never alters a present value. */
  function GetProduct(found: Option<StoreRecord>): (p: Option<Product>)
    ensures p.Some? <==> found.Some?
    ensures p.Some? ==> p.value.id == found.value.id
    ensures p.Some? ==> p.value.name == (if found.value.name.Some? then found.value.name.value else "")
    ensures p.Some? ==> p.value.stock == (if found.value.stock.Some? then found.value.stock.value else 0)
  {
    match found
    case None => None
    case Some(r) =>
      var name := if r.name.Some? && r.name.value != "" then r.name.value else "";
      var stock := if r.stock.Some? && r.stock.value != 0 then r.stock.value else 0;
      Some(Product(r.id, name, stock))
  }

  /** A calendar date as `Date` reports it: full year, zero-based month and
      day of the month. */
  datatype CalendarDate = CalendarDate(year: nat, month0: nat, day: nat)

  /** `getFormattedDate`: year, then month and day each padded to two digits,
      separated by '-'. */
  function FormattedDate(d: CalendarDate): (r: string)
  {
    NatToString(d.year) + "-" + Pad2(d.month0 + 1) + "-" + Pad2(d.day)
  }

  /** `n.toString().padStart(2, '0')`. */
  function Pad2(n: nat): (r: string)
  {
    PadStart(NatToString(n), 2, '0')
  }

  /** A number below 100 padded to two places is its tens digit then its
      units digit. */
  lemma TwoDigitField(n: nat)
    requires n < 100
    ensures Pad2(n) == [DigitChar(n / 10), DigitChar(n % 10)]
  {
    if n < 10 {
      assert NatToString(n) == [DigitChar(n)];
      assert PadStart([DigitChar(n)], 2, '0') == PadStart(['0', DigitChar(n)], 2, '0');
      assert DigitChar(n / 10) == '0' && n % 10 == n;
    } else {
      assert NatToString(n / 10) == [DigitChar(n / 10)];
      assert NatToString(n) == [DigitChar(n / 10), DigitChar(n % 10)];
    }
  }

  /** The value of a two-digit field. */
  lemma TwoDigitValue(n: nat)
    requires n < 100
    ensures AllDigits([DigitChar(n / 10), DigitChar(n % 10)])
    ensures DigitsValue([DigitChar(n / 10), DigitChar(n % 10)]) == n
  {
    var f := [DigitChar(n / 10), DigitChar(n % 10)];
    assert f[..1] == [DigitChar(n / 10)];
    assert f[..1][..0] == [];
    assert DigitsValue(f[..1]) == n / 10;
  }

  /** Where the three fields of `year-MM-DD` sit, for two-character MM, DD. */
  lemma DateLayout(y: string, m: string, dd: string)
    requires |m| == 2 && |dd| == 2
    ensures var r := y + "-" + m + "-" + dd; var n := |r|;
      && n == |y| + 6 && r[n - 6] == '-' && r[n - 3] == '-'
      && r[..n - 6] == y && r[n - 5..n - 3] == m && r[n - 2..] == dd
  {
  }

  /** `FormattedDate(d)` is the year's numeral, '-', the month's two digits,
      '-', the day's two digits. */
  lemma FormattedDateFields(d: CalendarDate)
    requires d.month0 + 1 < 100 && d.day < 100
    ensures FormattedDate(d) == NatToString(d.year) + "-"
      + [DigitChar((d.month0 + 1) / 10), DigitChar((d.month0 + 1) % 10)] + "-"
      + [DigitChar(d.day / 10), DigitChar(d.day % 10)]
  {
    TwoDigitField(d.month0 + 1);
    TwoDigitField(d.day);
  }

  /** The date string reads back as the year, the one-based month and the day:
      its last six characters are "-MM-DD" and everything before them is the
      year's numeral. */
  lemma {:induction false} FormattedDateReadsBack(d: CalendarDate)
    requires d.month0 + 1 < 100 && d.day < 100
    ensures var r := FormattedDate(d); var n := |r|;
      && n >= 7 && r[n - 6] == '-' && r[n - 3] == '-'
      && AllDigits(r[..n - 6]) && DigitsValue(r[..n - 6]) == d.year
      && AllDigits(r[n - 5..n - 3]) && DigitsValue(r[n - 5..n - 3]) == d.month0 + 1
      && AllDigits(r[n - 2..]) && DigitsValue(r[n - 2..]) == d.day
  {
    var y := NatToString(d.year);
    var m := [DigitChar((d.month0 + 1) / 10), DigitChar((d.month0 + 1) % 10)];
    var dd := [DigitChar(d.day / 10), DigitChar(d.day % 10)];
    NatToStringValue(d.year);
    FormattedDateFields(d);
    TwoDigitValue(d.month0 + 1);
    TwoDigitValue(d.day);
    DateLayout(y, m, dd);
  }

  /** For a four-digit year the date has the ISO 8601 calendar-date shape
      YYYY-MM-DD: ten characters, '-' at positions 4 and 7, digits elsewhere. */
  lemma {:induction false} FormattedDateIsIso(d: CalendarDate)
    requires 1000 <= d.year <= 9999 && d.month0 < 12 && 1 <= d.day <= 31
    ensures var r := FormattedDate(d);
      && |r| == 10 && r[4] == '-' && r[7] == '-'
      && forall i :: 0 <= i < 10 && i != 4 && i != 7 ==> IsDigit(r[i])
  {
    assert Pow10(3) == 1000 && Pow10(4) == 10000;
    NatToStringLength(d.year, 4);
    FormattedDateReadsBack(d);
    var r := FormattedDate(d);
    assert |r| == 10;
    assert forall i :: 0 <= i < 4 ==> r[i] == r[..4][i];
    assert forall i :: 5 <= i < 7 ==> r[i] == r[5..7][i - 5];
    assert forall i :: 8 <= i < 10 ==> r[i] == r[8..][i - 8];
  }

  /** The table an adjustment record is filed into: one table per kind. */
  function TableName(t: OpType): (name: string)
    ensures name == WriteoffsTable <==> t == Writeoff
    ensures name == SuppliesTable <==> t == Supply
  {
    match t
    case Writeoff => WriteoffsTable
    case Supply => SuppliesTable
  }

  /** The cache key `type-productId-qty`. */
  function CacheKey(t: OpType, productId: string, qty: nat): (key: string)
  {
    TypeName(t) + "-" + productId + "-" + NatToString(qty)
  }

  /** A string `type-rest` determines both the type and the rest. */
  lemma TypePrefixDetermines(t1: OpType, rest1: string, t2: OpType, rest2: string)
    requires TypeName(t1) + "-" + rest1 == TypeName(t2) + "-" + rest2
    ensures t1 == t2 && rest1 == rest2
  {
    var s := TypeName(t1) + "-" + rest1;
    assert s[0] == TypeName(t1)[0] && s[0] == TypeName(t2)[0];
    var k := |TypeName(t1)| + 1;
    assert rest1 == s[k..] && rest2 == s[k..];
  }

  /** Two calls share a cache entry exactly when they agree on type, product
      id and quantity, even though product ids may themselves contain '-'. */
  lemma CacheKeyInjective(t1: OpType, p1: string, q1: nat, t2: OpType, p2: string, q2: nat)
    ensures CacheKey(t1, p1, q1) == CacheKey(t2, p2, q2) <==> t1 == t2 && p1 == p2 && q1 == q2
  {
    if CacheKey(t1, p1, q1) == CacheKey(t2, p2, q2) {
      DigitsHaveNoDash(NatToString(q1));
      DigitsHaveNoDash(NatToString(q2));
      assert (TypeName(t1) + "-" + p1) + "-" + NatToString(q1)
          == (TypeName(t2) + "-" + p2) + "-" + NatToString(q2);
      SplitAtLastDash(TypeName(t1) + "-" + p1, NatToString(q1), TypeName(t2) + "-" + p2, NatToString(q2));
      TypePrefixDetermines(t1, p1, t2, p2);
      NatToStringInjective(q1, q2);
    }
  }

  /** Whether the cache refuses `key` at time `now`: an entry younger than the
      cooldown. An entry the source's timer would already have removed is
      exactly one at least `CooldownMs` old, so it is simply not refused. */
  predicate InCooldown(cache: map<string, int>, key: string, now: int) {
    key in cache && now - cache[key] < CooldownMs
  }

  /** One successful write: its key and the time it was accepted. */
  datatype Acceptance = Acceptance(key: string, at: int)

  /** The cache that a history of successful writes leaves behind: each key
      maps to the time of its latest acceptance. */
  ghost function Latest(h: seq<Acceptance>): map<string, int>
  {
    if h == [] then map[]
    else Latest(h[..|h| - 1])[h[|h| - 1].key := h[|h| - 1].at]
  }

  /** Any two acceptances of the same key are at least the cooldown apart. */
  ghost predicate Spaced(h: seq<Acceptance>) {
    forall i, j :: 0 <= i < j < |h| && h[i].key == h[j].key ==> h[j].at - h[i].at >= CooldownMs
  }

  /** In a spaced history every acceptance is still in the cache, and no later
      than what the cache holds for its key. */
  lemma {:induction false} LatestIsNewest(h: seq<Acceptance>, i: nat)
    requires Spaced(h) && i < |h|
    ensures h[i].key in Latest(h) && h[i].at <= Latest(h)[h[i].key]
  {
    var last := |h| - 1;
    if i < last {
      var init := h[..last];
      assert Spaced(init);
      assert init[i] == h[i];
      LatestIsNewest(init, i);
      if h[i].key == h[last].key {
        assert h[last].at - h[i].at >= CooldownMs;
      }
    }
  }

  /** Helper for `CreateOperation`: `Latest` of a history extended by one
      acceptance. */
  lemma LatestAppend(h: seq<Acceptance>, a: Acceptance)
    ensures Latest(h + [a]) == Latest(h)[a.key := a.at]
  {
    assert (h + [a])[..|h|] == h;
  }

  /** A write the cache lets through keeps the history spaced. */
  lemma AcceptKeepsSpacing(h: seq<Acceptance>, key: string, now: int)
    requires Spaced(h) && !InCooldown(Latest(h), key, now)
    ensures Spaced(h + [Acceptance(key, now)])
  {
    var h' := h + [Acceptance(key, now)];
    forall i, j | 0 <= i < j < |h'| && h'[i].key == h'[j].key
      ensures h'[j].at - h'[i].at >= CooldownMs
    {
      if j == |h| {
        LatestIsNewest(h, i);
      }
    }
  }

  /** The record `createOperation` asks the store to create. */
  datatype CreateRequest = CreateRequest(table: string, productIds: seq<string>, quantity: nat, date: string)

  /** What the store answered to the create call. */
  datatype WriteOutcome = Written | WriteFailed(thrown: Thrown)

  /** `createOperation` either resolves (to `true`) or rethrows. */
  datatype CreateResult = Created | Failed(thrown: Thrown)

  /** The client object and its module-wide cache `operationCache`. */
  class Api {
    var operationCache: map<string, int>
    /** Every successful write so far, oldest first. */
    ghost var accepted: seq<Acceptance>

    ghost predicate Valid()
      reads this
    {
      operationCache == Latest(accepted) && Spaced(accepted)
    }

    constructor ()
      ensures Valid()
      ensures operationCache == map[] && accepted == []
    {
      operationCache := map[];
      accepted := [];
    }

    /** `createOperation(type, productId, qty)`, with the clock reading `now`,
        today's date, and the store's answer to the write as inputs.
        `request` is the write sent to the store, `None` when none was sent. */
    method CreateOperation(t: OpType, productId: string, qty: nat, now: int, today: CalendarDate, remote: WriteOutcome)
      returns (request: Option<CreateRequest>, result: CreateResult)
      requires Valid()
      modifies this
      ensures Valid()
      ensures InCooldown(old(operationCache), CacheKey(t, productId, qty), now) ==>
        && request == None
        && result == Failed(ErrorThrown(CooldownMessage))
        && operationCache == old(operationCache) && accepted == old(accepted)
      ensures !InCooldown(old(operationCache), CacheKey(t, productId, qty), now) ==>
        request == Some(CreateRequest(TableName(t), [productId], qty, FormattedDate(today)))
      ensures !InCooldown(old(operationCache), CacheKey(t, productId, qty), now) && remote.Written? ==>
        && result == Created
        && operationCache == old(operationCache)[CacheKey(t, productId, qty) := now]
        && accepted == old(accepted) + [Acceptance(CacheKey(t, productId, qty), now)]
      ensures !InCooldown(old(operationCache), CacheKey(t, productId, qty), now) && remote.WriteFailed? ==>
        && result == Failed(remote.thrown)
        && operationCache == old(operationCache) && accepted == old(accepted)
    {
      var cacheKey := CacheKey(t, productId, qty);
      if cacheKey in operationCache {
        var lastOperationTime := operationCache[cacheKey];
        if now - lastOperationTime < CooldownMs {
          return None, Failed(ErrorThrown(CooldownMessage));
        }
      }
      var tableName := TableName(t);
      request := Some(CreateRequest(tableName, [productId], qty, FormattedDate(today)));
      match remote
      case WriteFailed(thrown) =>
        result := Failed(thrown);
      case Written =>
        AcceptKeepsSpacing(accepted, cacheKey, now);
        LatestAppend(accepted, Acceptance(cacheKey, now));
        operationCache := operationCache[cacheKey := now];
        accepted := accepted + [Acceptance(cacheKey, now)];
        result := Created;
    }
  }
}
