/** The screen state of the inventory app (src/App.tsx): a scan view that
    turns a scanned QR payload into a product under review, and a product
    view whose buttons record a write-off or a supply through `Api`. */
module App {
  import opened Wrappers
  import opened Numerals
  import opened Api

  datatype View = ScanView | ProductView

  /** A non-empty error text. */
  type Message = s: string | s != "" witness "?"

  /** The scanned text after `JSON.parse`: either parsing (or reading a
      property of the parsed value) threw, with the engine's message, or it
      gave an object whose `id` and `name` are strings or absent. */
  datatype ScanPayload = Malformed(message: Message) | Decoded(id: Option<string>, name: Option<string>)

  const BadFormatMessage: string := "Неверный формат QR-кода"
  const NotFoundMessage: string := "Товар не найден"
  const ReplayMessage: string := "Повторная операция заблокирована"
  const OperationFailedMessage: string := "Ошибка операции"

  /** JavaScript truthiness of an optional string. */
  predicate Truthy(s: Option<string>) {
    s.Some? && s.value != ""
  }

  /** The text shown for a caught value: an `Error`'s message, else `fallback`. */
  function ErrorText(e: Thrown, fallback: string): (text: string) {
    match e
    case ErrorThrown(message) => message
    case ValueThrown => fallback
  }

  /** The hash `type-productId-qty-timestamp` of one submission. */
  function OperationHash(t: OpType, productId: string, qty: nat, now: nat): (h: string) {
    CacheKey(t, productId, qty) + "-" + NatToString(now)
  }

  /** Two submissions hash alike exactly when they agree on type, product id,
      quantity and timestamp. */
  lemma OperationHashInjective(t1: OpType, p1: string, q1: nat, n1: nat, t2: OpType, p2: string, q2: nat, n2: nat)
    ensures OperationHash(t1, p1, q1, n1) == OperationHash(t2, p2, q2, n2)
        <==> t1 == t2 && p1 == p2 && q1 == q2 && n1 == n2
  {
    if OperationHash(t1, p1, q1, n1) == OperationHash(t2, p2, q2, n2) {
      DigitsHaveNoDash(NatToString(n1));
      DigitsHaveNoDash(NatToString(n2));
      SplitAtLastDash(CacheKey(t1, p1, q1), NatToString(n1), CacheKey(t2, p2, q2), NatToString(n2));
      CacheKeyInjective(t1, p1, q1, t2, p2, q2);
      NatToStringInjective(n1, n2);
    }
  }

  /** The stock after an adjustment of `qty`. */
  function AdjustedStock(stock: int, t: OpType, qty: nat): (r: int)
    ensures t == Supply ==> r >= stock
    ensures t == Writeoff ==> r <= stock
    ensures r == stock <==> qty == 0
  {
    match t
    case Supply => stock + qty
    case Writeoff => stock - qty
  }

  /** `lastOperationRef.current`: the type and hash of the last accepted operation. */
  datatype LastOperation = LastOperation(kind: OpType, hash: string)

  /** One submission: type, product id, quantity and timestamp. */
  datatype Submission = Submission(kind: OpType, productId: string, qty: nat, at: nat)

  function HashOf(s: Submission): (h: string) {
    OperationHash(s.kind, s.productId, s.qty, s.at)
  }

  /** The `App` component's state. `qty` is the quantity field: `None` when
      it is empty, otherwise the number it holds. */
  class App {
    const api: Api
    var view: View
    var product: Option<Product>
    var qty: Option<nat>
    var error: string
    var isProcessing: bool
    var lastOperation: Option<LastOperation>
    /** The submission that `lastOperation` records. */
    ghost var lastAccepted: Option<Submission>

    ghost predicate Valid()
      reads this
    {
      && (view == ProductView ==> product.Some?)
      && (lastOperation.Some? <==> lastAccepted.Some?)
      && (lastAccepted.Some? ==>
            lastOperation.value == LastOperation(lastAccepted.value.kind, HashOf(lastAccepted.value)))
    }

    constructor (api: Api)
      ensures Valid()
      ensures this.api == api
      ensures view == ScanView && product == None && qty == None && error == ""
      ensures !isProcessing && lastOperation == None && lastAccepted == None
    {
      this.api := api;
      view := ScanView;
      product := None;
      qty := None;
      error := "";
      isProcessing := false;
      lastOperation := None;
      lastAccepted := None;
    }

    /** The guard of `handleOperation`: a product, a quantity, nothing in flight. */
    predicate Ready()
      reads this
    {
      product.Some? && qty.Some? && !isProcessing
    }

    /** Whether the write-off button is enabled: it also asks for enough stock,
        so an enabled write-off passes the guard and cannot drive the stock
        below zero. */
    predicate WriteoffEnabled()
      reads this
      ensures WriteoffEnabled() ==> Ready() && AdjustedStock(product.value.stock, Writeoff, qty.value) >= 0
    {
      !(isProcessing || qty.None? || (if product.Some? then product.value.stock < qty.value else true))
    }

    /** Whether the supply button is enabled: unlike the write-off button it
        does not look at the product, which the guard then checks. */
    predicate SupplyEnabled()
      reads this
      ensures SupplyEnabled() && product.Some? <==> Ready()
    {
      !(isProcessing || qty.None?)
    }

    /** Typing into the quantity field. */
    method SetQty(q: Option<nat>)
      requires Valid()
      modifies this
      ensures Valid()
      ensures qty == q
      ensures view == old(view) && product == old(product) && error == old(error)
      ensures isProcessing == old(isProcessing) && lastOperation == old(lastOperation)
      ensures lastAccepted == old(lastAccepted)
    {
      qty := q;
    }

    /** The back button: return to the scanner and keep everything else. */
    method Back()
      requires Valid()
      modifies this
      ensures Valid()
      ensures view == ScanView
      ensures product == old(product) && qty == old(qty) && error == old(error)
      ensures isProcessing == old(isProcessing) && lastOperation == old(lastOperation)
      ensures lastAccepted == old(lastAccepted)
    {
      view := ScanView;
    }

    /** `handleScan`: `payload` is the parsed scan and `found` what the store's
        lookup of the payload's id answers. `fetched` is the id looked up,
        `None` when no lookup was made. */
    method HandleScan(payload: ScanPayload, found: Option<StoreRecord>) returns (fetched: Option<string>)
      requires Valid()
      modifies this
      ensures Valid()
      ensures qty == old(qty) && isProcessing == old(isProcessing)
      ensures lastOperation == old(lastOperation) && lastAccepted == old(lastAccepted)
      // a scan either reaches the product view with no error, or stays at the
      // scanner with an error to show
      ensures view == ProductView <==> error == ""
      ensures view == ScanView ==> product == old(product)
      ensures payload.Malformed? ==> fetched == None && view == ScanView && error == payload.message
      ensures payload.Decoded? && !Truthy(payload.id) ==>
        fetched == None && view == ScanView && error == BadFormatMessage
      ensures payload.Decoded? && Truthy(payload.id) ==> fetched == Some(payload.id.value)
      ensures payload.Decoded? && Truthy(payload.id) && GetProduct(found).None? ==>
        view == ScanView && error == NotFoundMessage
      ensures payload.Decoded? && Truthy(payload.id) && GetProduct(found).Some? ==>
        && view == ProductView
        && product.Some?
        && product.value.id == GetProduct(found).value.id
        && product.value.stock == GetProduct(found).value.stock
        && product.value.name == (if Truthy(payload.name) then payload.name.value else GetProduct(found).value.name)
    {
      fetched := None;
      match payload
      case Malformed(message) =>
        error := message;
        view := ScanView;
      case Decoded(id, name) =>
        if !Truthy(id) {
          error := BadFormatMessage;
          view := ScanView;
          return;
        }
        fetched := Some(id.value);
        var stored := GetProduct(found);
        if stored.None? {
          error := NotFoundMessage;
          view := ScanView;
          return;
        }
        product := Some(stored.value.(name := if Truthy(name) then name.value else stored.value.name));
        view := ProductView;
        error := "";
    }

    /** `handleOperation(type)`: `now` is the clock read for the hash,
        `apiNow` the one `createOperation` reads, `today` the date stamped on
        the record and `remote` the store's answer to the write. `request` is
        the write sent to the store, `None` when none was sent. */
    method HandleOperation(t: OpType, now: nat, apiNow: int, today: CalendarDate, remote: WriteOutcome)
      returns (request: Option<CreateRequest>)
      requires Valid() && api.Valid()
      modifies this, api
      ensures Valid() && api.Valid()
      ensures view == old(view)
      // the guard: nothing changes and nothing is sent
      ensures !old(Ready()) ==>
        && request == None && unchanged(this) && unchanged(api)
      // a writeoff whose button was enabled leaves a non-negative stock
      ensures old(WriteoffEnabled()) && t == Writeoff ==> product.Some? && product.value.stock >= 0
      ensures old(Ready()) ==> !isProcessing
      ensures old(Ready()) ==>
        var p := old(product).value;
        var q := old(qty).value;
        var key := CacheKey(t, p.id, q);
        // the local replay check fires exactly on a repeat of the last
        // accepted submission, timestamp included
        && (old(lastAccepted) == Some(Submission(t, p.id, q, now)) ==>
              && request == None && error == ReplayMessage
              && product == old(product) && qty == old(qty)
              && lastOperation == old(lastOperation) && lastAccepted == old(lastAccepted)
              && unchanged(api))
        && (old(lastAccepted) != Some(Submission(t, p.id, q, now)) ==>
              && (InCooldown(old(api.operationCache), key, apiNow) ==>
                    && request == None && error == CooldownMessage
                    && product == old(product) && qty == old(qty)
                    && lastOperation == old(lastOperation) && lastAccepted == old(lastAccepted)
                    && api.operationCache == old(api.operationCache)
                    && api.accepted == old(api.accepted))
              && (!InCooldown(old(api.operationCache), key, apiNow) ==>
                    request == Some(CreateRequest(TableName(t), [p.id], q, FormattedDate(today))))
              && (!InCooldown(old(api.operationCache), key, apiNow) && remote.Written? ==>
                    && product == Some(p.(stock := AdjustedStock(p.stock, t, q)))
                    && qty == None && error == ""
                    && lastAccepted == Some(Submission(t, p.id, q, now))
                    && lastOperation == Some(LastOperation(t, OperationHash(t, p.id, q, now)))
                    && api.operationCache == old(api.operationCache)[key := apiNow]
                    && api.accepted == old(api.accepted) + [Acceptance(key, apiNow)])
              && (!InCooldown(old(api.operationCache), key, apiNow) && remote.WriteFailed? ==>
                    && product == old(product) && qty == old(qty)
                    && error == ErrorText(remote.thrown, OperationFailedMessage)
                    && lastOperation == old(lastOperation) && lastAccepted == old(lastAccepted)
                    && api.operationCache == old(api.operationCache)
                    && api.accepted == old(api.accepted)))
    {
      if product.None? || qty.None? || isProcessing {
        return None;
      }
      var p := product.value;
      var q := qty.value;
      var operationHash := OperationHash(t, p.id, q, now);
      if lastOperation.Some? && lastOperation.value.hash == operationHash {
        OperationHashInjective(t, p.id, q, now, lastAccepted.value.kind, lastAccepted.value.productId,
                               lastAccepted.value.qty, lastAccepted.value.at);
        error := ReplayMessage;
        return None;
      }
      isProcessing := true;
      error := "";
      var result;
      request, result := api.CreateOperation(t, p.id, q, apiNow, today, remote);
      match result {
        case Created =>
          product := Some(p.(stock := AdjustedStock(p.stock, t, q)));
          lastOperation := Some(LastOperation(t, operationHash));
          lastAccepted := Some(Submission(t, p.id, q, now));
          qty := None;
        case Failed(thrown) =>
          error := ErrorText(thrown, OperationFailedMessage);
      }
      isProcessing := false;
    }
  }

  /** The walk-through of a scan, a write-off of 3 from a stock of 10, an
      immediate repeat, and a repeat once the cooldown has passed. */
  method ScanThenRepeatedWriteoff(today: CalendarDate) {
    var api := new Api();
    var app := new App(api);
    var fetched := app.HandleScan(Decoded(Some("rec123"), None), Some(StoreRecord("rec123", Some("Widget"), Some(10))));
    assert fetched == Some("rec123");
    assert app.view == ProductView && app.product == Some(Product("rec123", "Widget", 10));
    app.SetQty(Some(3));
    var request := app.HandleOperation(Writeoff, 1000, 1000, today, Written);
    assert request.Some? && app.product.value.stock == 7 && app.qty == None;
    app.SetQty(Some(3));
    request := app.HandleOperation(Writeoff, 1001, 1001, today, Written);
    assert request == None && app.error == CooldownMessage && app.product.value.stock == 7;
    request := app.HandleOperation(Writeoff, 301000, 301000, today, Written);
    assert request.Some? && app.product.value.stock == 4;
  }
}
