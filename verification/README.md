# Random node: a verified model of `execute`

This project models the `execute` method of the n8n "Random" node
(`nodes/Random/Random.node.ts`, lines 65-159) and proves what it promises. For every
input item the node:

1. reads the `min` and `max` parameters and rejects `min > max` with a validation error;
2. asks random.org for one integer in `[min, max]` with a GET request whose URL is a
   fixed template, a 10-second timeout and a fixed User-Agent;
3. takes the first run of decimal digits in the reply (`/\d+/`) and reads it with
   `parseInt(…, 10)`;
4. emits `{randomNumber, min, max, source: 'random.org', timestamp, ...item.json}`
   tagged with `pairedItem.item = i`.

A failure in any of these steps either becomes an error record
`{error: message, ...item.json}` for that item, when continue-on-fail is on, or rethrows
the original error and abandons the whole run.

The host is replaced by plain inputs. Each `ItemInput` carries:

- the item's JSON fields;
- the resolved `min` and `max`;
- the outcome the HTTP helper would give (a text reply, or a thrown value);
- the string the clock would give for the timestamp.

`Execute` also returns the list of requests it made, so the model can state which items
reach the network.

Modules:

- `Wrappers`: `Option` and `Result`.
- `Decimal`: how a template literal writes an integer, the value of a digit string, and
  JavaScript's `parseInt` for base 10.
- `Records`: JSON values, field maps, the object spread `{...a, ...b}`, and the success
  and error records.
- `RandomNode`: errors, the request, the reply scanner, one item (`ProcessItem`, the
  `TryItem` method), and the run (`Execute`). The run is specified by the functions
  `Steps`, `FirstFailure`, `Outputs` and `IssuedRequests`.
- `RandomNodeFacts`: properties of the model. These are read-back of the URL and the
  validation message, uniqueness of the scanned run, the records keeping their input,
  failure order, and the node's own test scenarios, as lemmas and as client methods that
  call `Execute`.

Two behaviours of the code are modelled as written and stated as lemmas:

- The digit scan never includes a minus sign, so the numeral of any negative n is read
  as -n (`NegativeReplyReadAsMagnitude`; `MinusSignDropped` is the case -5). Nothing checks the number against `[min, max]`
  (`OutOfRangeAccepted`).
- The input fields are spread last, so an input field named `error` replaces the message
  of an error record (`InputErrorFieldHidesMessage`).

## Model

| member | source | states |
|---|---|---|
| Decimal.NatToStringMeaning | nodes/Random/Random.node.ts:83 | the numeral written for a natural number is all digits, has no leading zero, and has that number as its decimal value |
| Decimal.IntToStringRoundTrip | nodes/Random/Random.node.ts:83 | the text a template literal writes for an integer (a minus sign for negatives) reads back as that integer |
| Decimal.DigitsParse | nodes/Random/Random.node.ts:115 | parseInt of a non-empty digit string is never NaN and equals the string's decimal value |
| Records.SpreadMeaning | nodes/Random/Random.node.ts:125-133 | an object spread keeps the fields of both sides, and the side spread later wins on a shared name |
| Records.SuccessFieldsShape | nodes/Random/Random.node.ts:125-133 | a success record has exactly the five generated fields plus the input's fields; every input field keeps its input value; each generated field keeps its generated value only when the input lacks that name |
| Records.ErrorFieldsShape | nodes/Random/Random.node.ts:143-147 | an error record has exactly `error` plus the input's fields; input values win; the message shows only when the input has no `error` field |
| RandomNode.MessageOf | nodes/Random/Random.node.ts:140 | a thrown value that is not an Error gives the message "Erro desconhecido" |
| RandomNode.RequestFor | nodes/Random/Random.node.ts:86-93 | the request is a GET to the URL template filled with min and max, with a 10000 ms timeout and the User-Agent `n8n-random-node/1.0.0` |
| RandomNode.FirstDigitRunMeaning | nodes/Random/Random.node.ts:106 | the scan finds no run exactly when the text has no digit; otherwise it returns a non-empty run of digits with no digit before it and none right after it |
| RandomNode.ParseResponseMeaning | nodes/Random/Random.node.ts:106-123 | a reply gives a number exactly when it has a digit; the number is the value of the first maximal digit run and is never negative, so the NaN check never fires; otherwise the error is the "no number" parse error quoting the whole reply, at this item's index |
| RandomNode.Recorded | nodes/Random/Random.node.ts:139-153 | under continue-on-fail an item is emitted as its success record, or as the error record built from the thrown value's message and its input fields, tagged with its index either way |
| RandomNode.OkBeforeFirstErr | nodes/Random/Random.node.ts:69-155 | every item before the first failing one, or every item when none fails, succeeded |
| RandomNode.FirstFailure | nodes/Random/Random.node.ts:69-155 | the index where a run without continue-on-fail stops is an item whose try block throws |
| RandomNode.OutputsAt | nodes/Random/Random.node.ts:134-136 | output k is what item k records, with `pairedItem` equal to k |
| RandomNode.AllValidRequests | nodes/Random/Random.node.ts:83-93 | when every item has valid bounds, the calls made are one per item, for that item's bounds, in input order |
| RandomNode.InvalidItemNotRequested | nodes/Random/Random.node.ts:74-86 | an item with reversed bounds, anywhere in a batch, adds no call: the calls after it equal the calls before it |
| RandomNode.InvalidNeverRequested | nodes/Random/Random.node.ts:74-86 | a batch in which every item has reversed bounds makes no call at all |
| RandomNode.TryItem | nodes/Random/Random.node.ts:71-137 | the try block yields exactly `ProcessItem`'s result and calls the helper once, with `RequestFor(min, max)`, exactly when min <= max |
| RandomNode.Execute | nodes/Random/Random.node.ts:65-159 | the run fails only without continue-on-fail, and then exactly when some item throws; it rethrows the first failing item's own error, and the calls made stop with that item; otherwise it returns one branch with one record per input item, in input order, and the calls of all valid items |
| RandomNodeFacts.ReadTemplateRoundTrip | nodes/Random/Random.node.ts:77 | a template filled with two integers reads back as those two integers |
| RandomNodeFacts.RequestUrlRoundTrip | nodes/Random/Random.node.ts:83 | the URL reads back as the min and max it was built from |
| RandomNodeFacts.RequestForFiveToFifteen | tests/Random.node.test.ts:196-214 | bounds 5 and 15 give a GET to `https://www.random.org/integers/?num=1&min=5&max=15&col=1&base=10&format=plain&rnd=new` with a 10000 ms timeout and the User-Agent `n8n-random-node/1.0.0` |
| RandomNodeFacts.RequestUrlInjective | nodes/Random/Random.node.ts:83-93 | two different pairs of bounds never produce the same request |
| RandomNodeFacts.BoundsMessageNamesBounds | nodes/Random/Random.node.ts:77 | the validation message names min and then max: both read back from it |
| RandomNodeFacts.InvalidBoundsFail | nodes/Random/Random.node.ts:74-80 | with min > max the item fails at its own index with a validation error naming both bounds, whatever the network would say, and no call is made for it |
| RandomNodeFacts.FirstDigitRunUnique | nodes/Random/Random.node.ts:106 | the first maximal digit run of a text is unique and is the one the scan returns |
| RandomNodeFacts.ResponseOfRun | nodes/Random/Random.node.ts:106-115 | a reply is read as the value of its first maximal digit run, whatever surrounds it |
| RandomNodeFacts.SurroundedNumber | nodes/Random/Random.node.ts:106-115 | a number with digit-free text before it and no digit right after it is read back exactly |
| RandomNodeFacts.PaddedReplyIsThree | tests/Random.node.test.ts:119-131 | the reply `"  3  \n"` is read as 3 |
| RandomNodeFacts.NoDigitReplyFails | nodes/Random/Random.node.ts:107-113 | a reply without a digit, such as "invalid", fails with the parse error quoting the whole reply |
| RandomNodeFacts.NegativeReplyReadAsMagnitude | nodes/Random/Random.node.ts:106-115 | the numeral of any negative n is read as -n: the minus sign is never part of the match |
| RandomNodeFacts.MinusSignDropped | nodes/Random/Random.node.ts:106 | a reply of "-5" is read as 5: the sign is not part of the match |
| RandomNodeFacts.SuccessfulItem | nodes/Random/Random.node.ts:106-137 | with valid bounds and a text reply, the item succeeds with the success record for its reply's first digit run, tagged with its index |
| RandomNodeFacts.PlainReply | nodes/Random/Random.node.ts:115-137 | a reply that is just the numeral of n gives the success record for n |
| RandomNodeFacts.OutOfRangeAccepted | nodes/Random/Random.node.ts:115-137 | a reply of 42 for the range [1, 6] is still accepted: the number is never checked against the bounds |
| RandomNodeFacts.RejectedCallPropagates | nodes/Random/Random.node.ts:86-93 | when the HTTP helper rejects, the item fails with the helper's own thrown value after exactly one call |
| RandomNodeFacts.RecordedKeepsInput | nodes/Random/Random.node.ts:139-151 | whatever is emitted for an item keeps every input field with its input value, is tagged with the item's index, and carries the error's message unless the input has its own `error` field |
| RandomNodeFacts.InputErrorFieldHidesMessage | nodes/Random/Random.node.ts:143-147 | an input field named `error` replaces the failure message in the error record |
| RandomNodeFacts.NoFailureIffAllSucceed | nodes/Random/Random.node.ts:69-158 | a run without continue-on-fail finds no failure exactly when every item's try block succeeds |
| RandomNodeFacts.FirstFailureIsFirst | nodes/Random/Random.node.ts:69-155 | the item the run stops at comes no later than any failing item |
| RandomNodeFacts.NetworkErrorRun | tests/Random.node.test.ts:144-155 | a rejected HTTP call without continue-on-fail makes the run throw the helper's "Network error" |
| RandomNodeFacts.ContinueOnFailRun | tests/Random.node.test.ts:157-172 | with continue-on-fail, reversed bounds 100 > 1 give one error record holding the validation message and the input's `id` |
| RandomNodeFacts.TenAndTwenty | tests/Random.node.test.ts:174-193 | replies "10" and "20" give the success records for 10 and 20 |
| RandomNodeFacts.TwoRepliesInOrder | tests/Random.node.test.ts:174-193 | for those two items no step fails, and both records are emitted in input order with their own `batch` fields |
| RandomNodeFacts.TwoItemsRun | tests/Random.node.test.ts:174-193 | the run over those two items returns one branch holding the two records in input order |

## Left out

- The HTTP helper (lines 86-93): the network exchange, the enforcement of the timeout and
  the header transport are not modelled. Each item brings the helper's outcome as an
  input. The request the node builds (method, URL, timeout, User-Agent) is returned by
  `Execute`.
- Response coercion (lines 96-103): the reply is modelled as text. Object replies, which
  the node passes through `JSON.stringify`, and other non-string values, which go through
  `String`, are not modelled: their result depends on the JavaScript runtime's
  serialisation.
- The clock (line 131): `new Date().toISOString()` is an opaque per-item string input.
- Number parameters (lines 71-72): `min` and `max` are unbounded integers. Fractional
  values, NaN, and numbers beyond 2^53 are not modelled. Neither are their template
  renderings (exponent notation, "NaN") or `parseInt`'s floating-point rounding of very
  long digit runs.
- Parameter lookup and error wrapping: `getNodeParameter` is replaced by the resolved
  bounds. `NodeOperationError` and `getNode()` become `OperationError(kind, message,
  itemIndex)`.
- The node's `description` object (lines 10-63) is static metadata with no behaviour.
- `async`/`await`: each call is awaited before the next item, so the run is sequential.
  Suspension is not modelled.
- Key order: field maps are unordered, so the key order of the emitted JSON objects is
  not modelled. The spread's "later side wins" rule is.
- RandomNode.MessageOf: its contract states only the non-Error case. For the other cases
  the message is the thrown error's own message, which its body gives directly.
- RandomNode.FirstDigitRun: its contract states only that the run lies inside the text.
  Leftmost and maximal are stated by `FirstDigitRunMeaning`.
