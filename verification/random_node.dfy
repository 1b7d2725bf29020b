/**
  The Random node's `execute`: for each input item, read the bounds, reject min > max,
  ask random.org for one integer in the range, read the first run of digits in the reply,
  and emit the number merged with the item's fields; failures either become error items
  (continue-on-fail) or abort the whole run.

  The host is replaced by plain inputs: each item brings its fields, its resolved bounds,
  what the HTTP helper would do for it, and the timestamp the clock would give.
 */
module RandomNode {
  import opened Wrappers
  import opened Decimal
  import opened Records

  // ---------------------------------------------------------------------------
  // Errors

  /** The two kinds of error the node raises itself. */
  datatype ErrorKind = Validation | Parse

  /** What a step can throw. */
  datatype Thrown =
    | OperationError(kind: ErrorKind, message: string, itemIndex: nat)  // raised by the node
    | HostError(message: string)  // an Error raised by the HTTP helper
    | NonErrorValue               // a thrown value that is not an Error

  /** `error instanceof Error ? error.message : 'Erro desconhecido'`. */
  function MessageOf(t: Thrown): (m: string)
    ensures t.NonErrorValue? ==> m == UnknownErrorMessage
  {
    match t
    case OperationError(_, message, _) => message
    case HostError(message) => message
    case NonErrorValue => UnknownErrorMessage
  }

  const UnknownErrorMessage := "Erro desconhecido"

  const BoundsMessageHead := "Valor mínimo ("
  const BoundsMessageMiddle := ") não pode ser maior que o máximo ("
  const BoundsMessageTail := ")"
  const NoNumberMessageHead := "Não foi possível extrair número da resposta: "
  const InvalidNumberMessageHead := "Número inválido extraído: "

  /** The message of the validation error for min > max. */
  function BoundsMessage(min: int, max: int): string {
    BoundsMessageHead + IntToString(min) + BoundsMessageMiddle + IntToString(max) + BoundsMessageTail
  }

  // ---------------------------------------------------------------------------
  // The request to random.org

  const UrlHead := "https://www.random.org/integers/?num=1&min="
  const UrlMiddle := "&max="
  const UrlTail := "&col=1&base=10&format=plain&rnd=new"
  const RequestMethod := "GET"
  const RequestTimeoutMs := 10000
  const UserAgent := "n8n-random-node/1.0.0"

  /** One call of the HTTP helper: method, URL, timeout and User-Agent header. */
  datatype Request = Request(httpMethod: string, url: string, timeoutMs: nat, userAgent: string)

  /** The URL that asks random.org for one integer in [min, max], base 10, as plain text. */
  function RequestUrl(min: int, max: int): string {
    UrlHead + IntToString(min) + UrlMiddle + IntToString(max) + UrlTail
  }

  function RequestFor(min: int, max: int): (req: Request)
    ensures req.httpMethod == "GET" && req.timeoutMs == 10000
    ensures req.userAgent == "n8n-random-node/1.0.0"
    ensures req.url == RequestUrl(min, max)
  {
    Request(RequestMethod, RequestUrl(min, max), RequestTimeoutMs, UserAgent)
  }

  // ---------------------------------------------------------------------------
  // Reading the reply: the first match of /\d+/ and parseInt

  /** A match of /\d+/: the half-open range [start, end) of the text. */
  datatype Span = Span(start: nat, end: nat)

  predicate HasDigit(s: string) {
    exists k :: 0 <= k < |s| && IsDigit(s[k])
  }

  /**
    The match /\d+/ finds: a non-empty run of digits with no digit before it (leftmost)
    and no digit right after it (greedy).
   */
  predicate IsFirstDigitRun(s: string, span: Span) {
    && span.start < span.end <= |s|
    && (forall k :: 0 <= k < span.start ==> !IsDigit(s[k]))
    && (forall k :: span.start <= k < span.end ==> IsDigit(s[k]))
    && (span.end < |s| ==> !IsDigit(s[span.end]))
  }

  /** The index of the first digit at or after `from`, or |s| when there is none. */
  function SkipNonDigits(s: string, from: nat): (k: nat)
    requires from <= |s|
    ensures from <= k <= |s|
    decreases |s| - from
  {
    if from == |s| || IsDigit(s[from]) then from else SkipNonDigits(s, from + 1)
  }

  /** SkipNonDigits stops at the first digit at or after `from`. */
  lemma {:induction false} SkipNonDigitsMeaning(s: string, from: nat)
    requires from <= |s|
    ensures forall j :: from <= j < SkipNonDigits(s, from) ==> !IsDigit(s[j])
    ensures SkipNonDigits(s, from) < |s| ==> IsDigit(s[SkipNonDigits(s, from)])
    decreases |s| - from
  {
    if from < |s| && !IsDigit(s[from]) {
      SkipNonDigitsMeaning(s, from + 1);
    }
  }

  /** `text.match(/\d+/)`: None when the text has no digit. */
  function FirstDigitRun(s: string): (r: Option<Span>)
    ensures r.Some? ==> r.value.start <= r.value.end <= |s|
  {
    var start := SkipNonDigits(s, 0);
    if start == |s| then None else Some(Span(start, SkipDigits(s, start)))
  }

  /** The scan finds no run exactly when the text has no digit, and otherwise the leftmost maximal one. */
  lemma FirstDigitRunMeaning(s: string)
    ensures FirstDigitRun(s).None? <==> !HasDigit(s)
    ensures FirstDigitRun(s).Some? ==> IsFirstDigitRun(s, FirstDigitRun(s).value)
  {
    var start := SkipNonDigits(s, 0);
    SkipNonDigitsMeaning(s, 0);
    if start < |s| {
      SkipDigitsMeaning(s, start);
    }
  }

  /**
    Lines 106-123 of the node: the first run of digits in the reply, read by parseInt.
    A reply without a digit is a parse error carrying the whole reply; a run that
    parseInt turns into NaN is a parse error naming the run.
   */
  function ParseResponse(text: string, itemIndex: nat): (r: Result<int, Thrown>)
    ensures r.Err? ==> r.error.OperationError? && r.error.kind == Parse && r.error.itemIndex == itemIndex
  {
    match FirstDigitRun(text)
    case None => Err(OperationError(Parse, NoNumberMessageHead + text, itemIndex))
    case Some(span) =>
      var digits := text[span.start..span.end];
      match JsParseInt(digits)
      case None => Err(OperationError(Parse, InvalidNumberMessageHead + digits, itemIndex))
      case Some(n) => Ok(n)
  }

  /**
    What reading the reply yields: a number exactly when the reply has a digit, and then
    the non-negative value of the first maximal run of digits, so the NaN check never
    fires; otherwise the "no number" error whose message ends with the whole reply.
   */
  lemma ParseResponseMeaning(text: string, itemIndex: nat)
    ensures var r := ParseResponse(text, itemIndex);
      && (r.Ok? <==> HasDigit(text))
      && (r.Ok? ==> exists span :: IsFirstDigitRun(text, span) && r.value == DecimalValue(text[span.start..span.end]))
      && (r.Ok? ==> r.value >= 0)
      && (r.Err? ==> r.error == OperationError(Parse, NoNumberMessageHead + text, itemIndex))
  {
    FirstDigitRunMeaning(text);
    match FirstDigitRun(text)
    case None =>
    case Some(span) =>
      DigitsParse(text[span.start..span.end]);
  }

  // ---------------------------------------------------------------------------
  // One item

  /** What the HTTP helper does for a request: resolve with a text body, or reject. */
  datatype HttpOutcome = Response(body: string) | Rejected(reason: Thrown)

  /**
    Everything the host supplies for item i: its JSON fields, the `min` and `max`
    parameters resolved for it, the HTTP helper's outcome should the node ask, and the
    time `new Date().toISOString()` would give.
   */
  datatype ItemInput = ItemInput(json: Fields, min: int, max: int, http: HttpOutcome, timestamp: string)

  predicate ValidBounds(item: ItemInput) {
    item.min <= item.max
  }

  /** The body of the `try` block for item i: the success item, or what it throws. */
  function ProcessItem(i: nat, item: ItemInput): (r: Result<Item, Thrown>)
  {
    if item.min > item.max then
      Err(OperationError(Validation, BoundsMessage(item.min, item.max), i))
    else match item.http
      case Rejected(reason) => Err(reason)
      case Response(body) =>
        match ParseResponse(body, i)
        case Err(e) => Err(e)
        case Ok(n) => Ok(Item(SuccessFields(n, item.min, item.max, item.timestamp, item.json), i))
  }

  /** The item pushed for item i under continue-on-fail: the success item or an error item. */
  function Recorded(i: nat, item: ItemInput): (out: Item)
    ensures out.pairedItem == i
    ensures ProcessItem(i, item).Ok? ==> out == ProcessItem(i, item).value
    ensures ProcessItem(i, item).Err? ==>
      out.json == ErrorFields(MessageOf(ProcessItem(i, item).error), item.json)
  {
    match ProcessItem(i, item)
    case Ok(success) => success
    case Err(e) => Item(ErrorFields(MessageOf(e), item.json), i)
  }

  /** `f` applied to each element of `xs` together with its index. */
  function MapIndexed<A, B>(xs: seq<A>, f: (nat, A) -> B): (ys: seq<B>)
    ensures |ys| == |xs|
  {
    seq(|xs|, j requires 0 <= j < |xs| => f(j, xs[j]))
  }

  /** Mapping one more element appends its image. */
  lemma MapIndexedPrefix<A, B>(xs: seq<A>, f: (nat, A) -> B, k: nat)
    requires k < |xs|
    ensures MapIndexed(xs[..k + 1], f) == MapIndexed(xs[..k], f) + [f(k, xs[k])]
  {
    var longer := MapIndexed(xs[..k + 1], f);
    var shorter := MapIndexed(xs[..k], f) + [f(k, xs[k])];
    forall j | 0 <= j < k + 1
      ensures longer[j] == shorter[j]
    {
      assert xs[..k + 1][j] == xs[j];
      if j < k {
        assert xs[..k][j] == xs[j];
      }
    }
  }

  /** The outcome of the `try` block of every item, in input order. */
  function Steps(items: seq<ItemInput>): (steps: seq<Result<Item, Thrown>>)
    ensures |steps| == |items|
  {
    MapIndexed(items, ProcessItem)
  }

  /** The index of the first failed step at or after `from`. */
  function FirstErrFrom(steps: seq<Result<Item, Thrown>>, from: nat): (r: Option<nat>)
    requires from <= |steps|
    ensures r.Some? ==> from <= r.value < |steps| && steps[r.value].Err?
    decreases |steps| - from
  {
    if from == |steps| then None
    else if steps[from].Err? then Some(from)
    else FirstErrFrom(steps, from + 1)
  }

  /** Every step before the first failed one succeeded (all of them, when none failed). */
  lemma {:induction false} OkBeforeFirstErr(steps: seq<Result<Item, Thrown>>, from: nat, j: nat)
    requires from <= j < |steps|
    requires FirstErrFrom(steps, from).None? || j < FirstErrFrom(steps, from).value
    ensures steps[j].Ok?
    decreases j - from
  {
    if from < j {
      OkBeforeFirstErr(steps, from + 1, j);
    }
  }

  /** Searching from item i either stops at i, when its step throws, or goes on from i + 1. */
  lemma FirstErrStep(items: seq<ItemInput>, i: nat)
    requires i < |items|
    ensures FirstErrFrom(Steps(items), i) ==
      if ProcessItem(i, items[i]).Err? then Some(i) else FirstErrFrom(Steps(items), i + 1)
  {
  }

  /** The first k + 1 items make the calls the first k make, then item k's call if its bounds are valid. */
  lemma PrefixRequests(items: seq<ItemInput>, k: nat)
    requires k < |items|
    ensures IssuedRequests(items[..k + 1]) == IssuedRequests(items[..k])
      + if ValidBounds(items[k]) then [RequestFor(items[k].min, items[k].max)] else []
  {
    assert items[..k + 1][..k] == items[..k];
  }

  /** The index of the first item whose step throws: where a run without continue-on-fail stops. */
  function FirstFailure(items: seq<ItemInput>): (r: Option<nat>)
    ensures r.Some? ==> r.value < |items| && ProcessItem(r.value, items[r.value]).Err?
  {
    FirstErrFrom(Steps(items), 0)
  }

  /** The items a run with continue-on-fail emits, one per input item, in order. */
  function Outputs(items: seq<ItemInput>): (out: seq<Item>)
    ensures |out| == |items|
  {
    MapIndexed(items, Recorded)
  }

  /** Output k is the item recorded for input k, tagged with k. */
  lemma OutputsAt(items: seq<ItemInput>, k: nat)
    requires k < |items|
    ensures Outputs(items)[k] == Recorded(k, items[k])
    ensures Outputs(items)[k].pairedItem == k
  {
  }

  /** The HTTP calls made for these items, in order: one per item with min <= max. */
  function IssuedRequests(items: seq<ItemInput>): (reqs: seq<Request>)
    ensures |reqs| <= |items|
  {
    if items == [] then []
    else
      var last := items[|items| - 1];
      IssuedRequests(items[..|items| - 1]) + if ValidBounds(last) then [RequestFor(last.min, last.max)] else []
  }

  /** One request per item, for that item's bounds, in input order. */
  function RequestPerItem(items: seq<ItemInput>): (reqs: seq<Request>)
    ensures |reqs| == |items|
  {
    seq(|items|, j requires 0 <= j < |items| => RequestFor(items[j].min, items[j].max))
  }

  /** Dropping the last item drops the last request of RequestPerItem. */
  lemma RequestPerItemSnoc(items: seq<ItemInput>)
    requires items != []
    ensures var last := items[|items| - 1];
      RequestPerItem(items) == RequestPerItem(items[..|items| - 1]) + [RequestFor(last.min, last.max)]
  {
    var init := items[..|items| - 1];
    forall j | 0 <= j < |init|
      ensures RequestPerItem(items)[j] == RequestPerItem(init)[j]
    {
      assert init[j] == items[j];
    }
  }

  /** When every item's bounds are valid, item k's request is the k-th one made, and there is one per item. */
  lemma {:induction false} AllValidRequests(items: seq<ItemInput>)
    requires forall j :: 0 <= j < |items| ==> ValidBounds(items[j])
    ensures IssuedRequests(items) == RequestPerItem(items)
  {
    if items != [] {
      var init := items[..|items| - 1];
      forall j | 0 <= j < |init|
        ensures ValidBounds(init[j])
      {
        assert init[j] == items[j];
      }
      AllValidRequests(init);
      RequestPerItemSnoc(items);
    }
  }

  /** An item whose bounds are reversed adds no call: the calls after it are those before it. */
  lemma InvalidItemNotRequested(items: seq<ItemInput>, k: nat)
    requires k < |items| && !ValidBounds(items[k])
    ensures IssuedRequests(items[..k + 1]) == IssuedRequests(items[..k])
  {
    PrefixRequests(items, k);
  }

  /** A batch in which every item has reversed bounds makes no call at all. */
  lemma {:induction false} InvalidNeverRequested(items: seq<ItemInput>)
    requires forall k :: 0 <= k < |items| ==> !ValidBounds(items[k])
    ensures IssuedRequests(items) == []
  {
    if items != [] {
      InvalidNeverRequested(items[..|items| - 1]);
    }
  }

  /**
    The `try` block for item i (lines 71-137), step by step: validate the bounds, call the
    HTTP helper, read the reply and build the success item. It is the method form of
    `ProcessItem`, which specifies it; `request` is the call made, if any.
   */
  method TryItem(i: nat, item: ItemInput) returns (step: Result<Item, Thrown>, request: Option<Request>)
    ensures step == ProcessItem(i, item)
    ensures request == if ValidBounds(item) then Some(RequestFor(item.min, item.max)) else None
  {
    if item.min > item.max {
      return Err(OperationError(Validation, BoundsMessage(item.min, item.max), i)), None;
    }
    var url := RequestUrl(item.min, item.max);
    request := Some(Request(RequestMethod, url, RequestTimeoutMs, UserAgent));
    match item.http
    case Rejected(reason) =>
      step := Err(reason);
    case Response(body) =>
      var parsed := ParseResponse(body, i);
      if parsed.Err? {
        step := Err(parsed.error);
      } else {
        step := Ok(Item(SuccessFields(parsed.value, item.min, item.max, item.timestamp, item.json), i));
      }
  }

  /**
    `execute`: the items processed one by one in order. The run fails only without
    continue-on-fail, and then exactly when some item fails: it rethrows the first
    failure and returns no items. Otherwise it returns one output branch holding one item
    per input item, in order. `requests` lists the HTTP calls made, which stop with the
    failing item.
   */
  method Execute(items: seq<ItemInput>, continueOnFail: bool)
    returns (outcome: Result<seq<seq<Item>>, Thrown>, requests: seq<Request>)
    ensures outcome.Ok? <==> continueOnFail || FirstFailure(items).None?
    ensures outcome.Ok? ==> outcome.value == [Outputs(items)] && requests == IssuedRequests(items)
    ensures outcome.Err? ==> var k := FirstFailure(items).value;
      outcome.error == ProcessItem(k, items[k]).error && requests == IssuedRequests(items[..k + 1])
  {
    var returnData: seq<Item> := [];
    requests := [];
    for i := 0 to |items|
      invariant returnData == Outputs(items[..i])
      invariant !continueOnFail ==> FirstFailure(items) == FirstErrFrom(Steps(items), i)
      invariant requests == IssuedRequests(items[..i])
    {
      var item := items[i];
      var step, request := TryItem(i, item);
      MapIndexedPrefix(items, Recorded, i);
      PrefixRequests(items, i);
      if request.Some? {
        requests := requests + [request.value];
      }
      if step.Err? {
        if continueOnFail {
          returnData := returnData + [Item(ErrorFields(MessageOf(step.error), item.json), i)];
          continue;
        }
        assert FirstFailure(items) == Some(i) by { FirstErrStep(items, i); }
        outcome := Err(step.error);
        return;
      }
      returnData := returnData + [step.value];
      assert FirstErrFrom(Steps(items), i) == FirstErrFrom(Steps(items), i + 1) by { FirstErrStep(items, i); }
    }
    assert items[..|items|] == items;
    outcome := Ok([returnData]);
  }
}
