/**
  What the Random node promises, proved about the model in RandomNode: the request URL
  and the validation message can be read back, the reply scanner finds the leftmost
  maximal run of digits, records keep the input's fields, and runs of `execute` behave as
  the node's tests expect.
 */
module RandomNodeFacts {
  import opened Wrappers
  import opened Decimal
  import opened Records
  import opened RandomNode

  // ---------------------------------------------------------------------------
  // Reading back a text built from a template with two numbers

  /** The rest of `s` after the prefix `p`, if `s` starts with `p`. */
  function StripPrefix(s: string, p: string): (r: Option<string>)
    ensures r.Some? ==> s == p + r.value
  {
    if |p| <= |s| && s[..|p|] == p then Some(s[|p|..]) else None
  }

  /**
    Reads the two numbers of a text `head + lo + mid + hi + tail`, where each number ends
    at the first `stop` character; any other text is rejected.
   */
  function ReadTemplate(s: string, head: string, mid: string, tail: string, stop: char): Option<(int, int)> {
    match StripPrefix(s, head)
    case None => None
    case Some(afterHead) =>
      match ReadSignedUntil(afterHead, stop)
      case None => None
      case Some((lo, rest)) =>
        match StripPrefix(rest, mid)
        case None => None
        case Some(afterMid) =>
          match ReadSignedUntil(afterMid, stop)
          case None => None
          case Some((hi, rest2)) => if rest2 == tail then Some((lo, hi)) else None
  }

  lemma StripPrefixOf(p: string, rest: string)
    ensures StripPrefix(p + rest, p) == Some(rest)
  {
    assert (p + rest)[..|p|] == p && (p + rest)[|p|..] == rest;
  }

  /** Filling the template and reading it back gives the two numbers again. */
  lemma ReadTemplateRoundTrip(lo: int, hi: int, head: string, mid: string, tail: string, stop: char)
    requires |mid| > 0 && mid[0] == stop && |tail| > 0 && tail[0] == stop
    requires !IsDigit(stop) && stop != '-'
    ensures ReadTemplate(head + IntToString(lo) + mid + IntToString(hi) + tail, head, mid, tail, stop) == Some((lo, hi))
  {
    var a, b := IntToString(lo), IntToString(hi);
    var afterMid := b + tail;
    var afterLo := mid + afterMid;
    var afterHead := a + afterLo;
    assert head + a + mid + b + tail == head + afterHead;
    StripPrefixOf(head, afterHead);
    ReadSignedUntilNumeral(lo, afterLo, stop);
    StripPrefixOf(mid, afterMid);
    ReadSignedUntilNumeral(hi, tail, stop);
  }

  // ---------------------------------------------------------------------------
  // The request URL

  /** Reads min and max back from a URL of the node's template; other text is rejected. */
  function ParseRequestUrl(url: string): Option<(int, int)> {
    ReadTemplate(url, UrlHead, UrlMiddle, UrlTail, '&')
  }

  /** The URL names exactly the bounds it was built from. */
  lemma RequestUrlRoundTrip(min: int, max: int)
    ensures ParseRequestUrl(RequestUrl(min, max)) == Some((min, max))
  {
    ReadTemplateRoundTrip(min, max, UrlHead, UrlMiddle, UrlTail, '&');
  }

  /** Different bounds never produce the same request. */
  lemma RequestUrlInjective(min1: int, max1: int, min2: int, max2: int)
    requires RequestFor(min1, max1) == RequestFor(min2, max2)
    ensures min1 == min2 && max1 == max2
  {
    RequestUrlRoundTrip(min1, max1);
    RequestUrlRoundTrip(min2, max2);
  }

  /**
    The node's URL test: bounds 5 and 15 give exactly the request the test expects. The
    expected URL is written as the test's literal cut at the two numbers.
   */
  lemma RequestForFiveToFifteen()
    ensures RequestFor(5, 15) == Request("GET",
      "https://www.random.org/integers/?num=1&min=" + "5" + "&max=" + "15" + "&col=1&base=10&format=plain&rnd=new",
      10000, "n8n-random-node/1.0.0")
  {
    assert IntToString(5) == "5";
    assert IntToString(15) == "15" by {
      assert IntToString(15) == NatToString(1) + [DigitChar(5)];
    }
  }

  // ---------------------------------------------------------------------------
  // Validation

  /** Reads min and max back from a validation message. */
  function ParseBoundsMessage(message: string): Option<(int, int)> {
    ReadTemplate(message, BoundsMessageHead, BoundsMessageMiddle, BoundsMessageTail, ')')
  }

  /** The validation message names both bounds, min first: they can be read back from it. */
  lemma BoundsMessageNamesBounds(min: int, max: int)
    ensures ParseBoundsMessage(BoundsMessage(min, max)) == Some((min, max))
  {
    ReadTemplateRoundTrip(min, max, BoundsMessageHead, BoundsMessageMiddle, BoundsMessageTail, ')');
  }

  /**
    An item with min > max fails validation at its own index, whatever the HTTP helper
    would have answered, with a message that names both bounds; no request is made for it.
   */
  lemma InvalidBoundsFail(i: nat, item: ItemInput)
    requires item.min > item.max
    ensures ProcessItem(i, item).Err?
    ensures var e := ProcessItem(i, item).error;
      && e.OperationError? && e.kind == Validation && e.itemIndex == i
      && ParseBoundsMessage(e.message) == Some((item.min, item.max))
    ensures IssuedRequests([item]) == []
  {
    BoundsMessageNamesBounds(item.min, item.max);
    assert [item][..0] == [];
  }

  // ---------------------------------------------------------------------------
  // Reading the reply

  /** The first maximal run of digits is unique: the scanner returns exactly it. */
  lemma FirstDigitRunUnique(s: string, span: Span)
    requires IsFirstDigitRun(s, span)
    ensures FirstDigitRun(s) == Some(span)
  {
    FirstDigitRunMeaning(s);
    assert HasDigit(s) by {
      assert IsDigit(s[span.start]);
    }
  }

  /** Whatever surrounds the first run of digits, the reply is read as that run's value. */
  lemma ResponseOfRun(text: string, itemIndex: nat, span: Span)
    requires IsFirstDigitRun(text, span)
    ensures AllDigits(text[span.start..span.end])
    ensures ParseResponse(text, itemIndex) == Ok(DecimalValue(text[span.start..span.end]))
  {
    FirstDigitRunUnique(text, span);
    DigitsParse(text[span.start..span.end]);
  }

  /**
    A number written out with text around it that has no digits before it and none right
    after it is read back exactly: surrounding whitespace and words are ignored.
   */
  lemma SurroundedNumber(prefix: string, n: nat, suffix: string, itemIndex: nat)
    requires forall k :: 0 <= k < |prefix| ==> !IsDigit(prefix[k])
    requires suffix != [] ==> !IsDigit(suffix[0])
    ensures ParseResponse(prefix + NatToString(n) + suffix, itemIndex) == Ok(n)
  {
    var digits := NatToString(n);
    var text := prefix + digits + suffix;
    var span := Span(|prefix|, |prefix| + |digits|);
    NatToStringMeaning(n);
    assert text[span.start..span.end] == digits;
    assert IsFirstDigitRun(text, span) by {
      assert forall k :: 0 <= k < |prefix| ==> text[k] == prefix[k];
      assert forall k :: span.start <= k < span.end ==> text[k] == digits[k - |prefix|];
      assert span.end < |text| ==> text[span.end] == suffix[0];
    }
    ResponseOfRun(text, itemIndex, span);
  }

  /** The reply of the node's test, "  3  \n", is read as 3. */
  lemma PaddedReplyIsThree()
    ensures ParseResponse("  3  \n", 0) == Ok(3)
  {
    assert NatToString(3) == "3";
    SurroundedNumber("  ", 3, "  \n", 0);
    assert "  " + "3" + "  \n" == "  3  \n";
  }

  /** A reply without any digit, such as "invalid", is a parse error quoting the whole reply. */
  lemma NoDigitReplyFails(text: string, itemIndex: nat)
    requires forall k :: 0 <= k < |text| ==> !IsDigit(text[k])
    ensures ParseResponse(text, itemIndex) ==
      Err(OperationError(Parse, "Não foi possível extrair número da resposta: " + text, itemIndex))
  {
    ParseResponseMeaning(text, itemIndex);
  }

  /**
    The sign is never part of the match: a reply of "-5", what the service sends for a
    range of negative numbers, is read as 5.
   */
  lemma MinusSignDropped()
    ensures ParseResponse("-5", 0) == Ok(5)
  {
    assert NatToString(5) == "5";
    SurroundedNumber("-", 5, "", 0);
    assert "-" + "5" + "" == "-5";
  }

  /**
    A reply that is the numeral of a negative number, what the service sends for a range
    of negative numbers, is read as its magnitude: the sign is never part of the match.
   */
  lemma NegativeReplyReadAsMagnitude(n: int, itemIndex: nat)
    requires n < 0
    ensures ParseResponse(IntToString(n), itemIndex) == Ok(-n)
  {
    SurroundedNumber("-", -n, "", itemIndex);
    assert "-" + NatToString(-n) + "" == IntToString(n);
  }

  // ---------------------------------------------------------------------------
  // One item

  /**
    With valid bounds and a reply whose first run of digits has value n, the item
    succeeds with the record `{randomNumber: n, min, max, source, timestamp, ...json}`
    tagged with its own index, and nothing checks n against [min, max].
   */
  lemma SuccessfulItem(i: nat, item: ItemInput, span: Span)
    requires ValidBounds(item) && item.http.Response?
    requires IsFirstDigitRun(item.http.body, span)
    ensures AllDigits(item.http.body[span.start..span.end])
    ensures var n := DecimalValue(item.http.body[span.start..span.end]);
      ProcessItem(i, item) == Ok(Item(SuccessFields(n, item.min, item.max, item.timestamp, item.json), i))
  {
    ResponseOfRun(item.http.body, i, span);
  }

  /**
    A reply that is just the numeral of n gives the success record for n, whether or not n
    lies in [min, max].
   */
  lemma PlainReply(i: nat, json: Fields, min: int, max: int, n: nat, timestamp: string)
    requires min <= max
    ensures ProcessItem(i, ItemInput(json, min, max, Response(NatToString(n)), timestamp))
      == Ok(Item(SuccessFields(n, min, max, timestamp, json), i))
  {
    SurroundedNumber("", n, "", i);
    assert "" + NatToString(n) + "" == NatToString(n);
  }

  /** A reply far outside the bounds is still accepted: 42 for the range [1, 6]. */
  lemma OutOfRangeAccepted(json: Fields, timestamp: string)
    ensures ProcessItem(0, ItemInput(json, 1, 6, Response("42"), timestamp))
      == Ok(Item(SuccessFields(42, 1, 6, timestamp, json), 0))
  {
    assert NatToString(42) == "42" by {
      assert NatToString(42) == NatToString(4) + [DigitChar(2)];
    }
    PlainReply(0, json, 1, 6, 42, timestamp);
  }

  /** A rejected HTTP call with valid bounds fails the item with the helper's own error. */
  lemma RejectedCallPropagates(i: nat, item: ItemInput)
    requires ValidBounds(item) && item.http.Rejected?
    ensures ProcessItem(i, item) == Err(item.http.reason)
    ensures IssuedRequests([item]) == [RequestFor(item.min, item.max)]
  {
    assert [item][..0] == [];
  }

  /**
    Under continue-on-fail, what is emitted for an item keeps every input field with its
    input value, is tagged with the item's index, and for a failing item carries the
    error's message in `error` unless the input has an `error` field of its own.
   */
  lemma RecordedKeepsInput(i: nat, item: ItemInput)
    ensures Recorded(i, item).pairedItem == i
    ensures forall k :: k in item.json ==> k in Recorded(i, item).json && Recorded(i, item).json[k] == item.json[k]
    ensures ProcessItem(i, item).Err? && ErrorKey !in item.json ==>
      Recorded(i, item).json[ErrorKey] == Str(MessageOf(ProcessItem(i, item).error))
  {
    match ProcessItem(i, item)
    case Err(e) =>
      ErrorFieldsShape(MessageOf(e), item.json);
    case Ok(success) =>
      if item.min <= item.max && item.http.Response? {
        var n := ParseResponse(item.http.body, i).value;
        SuccessFieldsShape(n, item.min, item.max, item.timestamp, item.json);
      }
  }

  /**
    An input field called `error` overrides the message of an error record, so the
    failure is not visible in the output.
   */
  lemma InputErrorFieldHidesMessage(i: nat, item: ItemInput)
    requires ProcessItem(i, item).Err? && ErrorKey in item.json
    ensures Recorded(i, item).json[ErrorKey] == item.json[ErrorKey]
  {
    RecordedKeepsInput(i, item);
  }

  // ---------------------------------------------------------------------------
  // Runs

  /** A run without continue-on-fail finds no failure exactly when every item's step succeeds. */
  lemma NoFailureIffAllSucceed(items: seq<ItemInput>)
    ensures FirstFailure(items).None? <==> forall j :: 0 <= j < |items| ==> ProcessItem(j, items[j]).Ok?
  {
    if FirstFailure(items).None? {
      forall j | 0 <= j < |items|
        ensures ProcessItem(j, items[j]).Ok?
      {
        OkBeforeFirstErr(Steps(items), 0, j);
      }
    }
  }

  /** The first failing item is the one with the smallest index among the failing ones. */
  lemma FirstFailureIsFirst(items: seq<ItemInput>, k: nat)
    requires k < |items| && ProcessItem(k, items[k]).Err?
    ensures FirstFailure(items).Some? && FirstFailure(items).value <= k
  {
    if FirstFailure(items).None? || k < FirstFailure(items).value {
      OkBeforeFirstErr(Steps(items), 0, k);
    }
  }

  /** The node's network-error test: one item, the HTTP helper rejects, no continue-on-fail. */
  method NetworkErrorRun(json: Fields, timestamp: string) returns (outcome: Result<seq<seq<Item>>, Thrown>)
    ensures outcome == Err(HostError("Network error"))
  {
    var item := ItemInput(json, 1, 100, Rejected(HostError("Network error")), timestamp);
    FirstFailureIsFirst([item], 0);
    var requests;
    outcome, requests := Execute([item], false);
  }

  /** The node's continue-on-fail test: reversed bounds become an error record keeping `id`. */
  method ContinueOnFailRun(timestamp: string, http: HttpOutcome) returns (outcome: Result<seq<seq<Item>>, Thrown>)
    ensures outcome.Ok? && |outcome.value| == 1 && |outcome.value[0]| == 1
    ensures outcome.value[0][0] == Item(map[ErrorKey := Str(BoundsMessage(100, 1)), "id" := Num(1)], 0)
  {
    var item := ItemInput(map["id" := Num(1)], 100, 1, http, timestamp);
    var requests;
    outcome, requests := Execute([item], true);
    OutputsAt([item], 0);
    assert ErrorFields(BoundsMessage(100, 1), item.json)
      == map[ErrorKey := Str(BoundsMessage(100, 1)), "id" := Num(1)];
  }

  /** Replies "10" and "20" with bounds [1, 100] give the success records for 10 and 20. */
  lemma TenAndTwenty(t0: string, t1: string)
    ensures ProcessItem(0, ItemInput(map["batch" := Num(1)], 1, 100, Response("10"), t0))
      == Ok(Item(SuccessFields(10, 1, 100, t0, map["batch" := Num(1)]), 0))
    ensures ProcessItem(1, ItemInput(map["batch" := Num(2)], 1, 100, Response("20"), t1))
      == Ok(Item(SuccessFields(20, 1, 100, t1, map["batch" := Num(2)]), 1))
  {
    assert NatToString(10) == "10" by {
      assert NatToString(10) == NatToString(1) + [DigitChar(0)];
    }
    assert NatToString(20) == "20" by {
      assert NatToString(20) == NatToString(2) + [DigitChar(0)];
    }
    PlainReply(0, map["batch" := Num(1)], 1, 100, 10, t0);
    PlainReply(1, map["batch" := Num(2)], 1, 100, 20, t1);
  }

  /** Two items whose replies are "10" and "20": neither fails, and each is recorded in its place. */
  lemma TwoRepliesInOrder(items: seq<ItemInput>, t0: string, t1: string)
    requires items == [
      ItemInput(map["batch" := Num(1)], 1, 100, Response("10"), t0),
      ItemInput(map["batch" := Num(2)], 1, 100, Response("20"), t1)
    ]
    ensures FirstFailure(items).None?
    ensures Outputs(items) == [
      Item(SuccessFields(10, 1, 100, t0, map["batch" := Num(1)]), 0),
      Item(SuccessFields(20, 1, 100, t1, map["batch" := Num(2)]), 1)
    ]
  {
    TenAndTwenty(t0, t1);
    OutputsAt(items, 0);
    OutputsAt(items, 1);
  }

  /** The node's multiple-items test: replies "10" and "20" give two records in input order. */
  method TwoItemsRun(t0: string, t1: string) returns (outcome: Result<seq<seq<Item>>, Thrown>)
    ensures outcome == Ok([[
      Item(SuccessFields(10, 1, 100, t0, map["batch" := Num(1)]), 0),
      Item(SuccessFields(20, 1, 100, t1, map["batch" := Num(2)]), 1)
    ]])
  {
    var items := [
      ItemInput(map["batch" := Num(1)], 1, 100, Response("10"), t0),
      ItemInput(map["batch" := Num(2)], 1, 100, Response("20"), t1)
    ];
    TwoRepliesInOrder(items, t0, t1);
    var requests;
    outcome, requests := Execute(items, false);
  }
}
