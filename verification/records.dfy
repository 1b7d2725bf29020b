/**
  The records a workflow item carries: a JSON object as a map from field name to value,
  and the output item that wraps one together with the index of the input it came from.
 */
module Records {

  /** A JSON value as it may appear in an item's fields. */
  datatype Value =
    | Null
    | Bool(b: bool)
    | Num(n: int)
    | Str(s: string)
    | Arr(elems: seq<Value>)
    | Obj(fields: map<string, Value>)

  type Fields = map<string, Value>

  /** An output item: its JSON fields and `pairedItem.item`, the index of its input. */
  datatype Item = Item(json: Fields, pairedItem: nat)

  /**
    The object literal `{...base, ...overlay}`: every field of either, and where both
    have a field the one spread later, `overlay`, wins.
   */
  function Spread(base: Fields, overlay: Fields): Fields
  {
    base + overlay
  }

  const RandomNumberKey := "randomNumber"
  const MinKey := "min"
  const MaxKey := "max"
  const SourceKey := "source"
  const TimestampKey := "timestamp"
  const ErrorKey := "error"

  /** The value of the `source` field of every generated record. */
  const SourceName := "random.org"

  /** The fields the node generates for a drawn number, before the input is spread over them. */
  function GeneratedFields(randomNumber: int, min: int, max: int, timestamp: string): Fields
  {
    map[RandomNumberKey := Num(randomNumber), MinKey := Num(min), MaxKey := Num(max),
        SourceKey := Str(SourceName), TimestampKey := Str(timestamp)]
  }

  /** `{randomNumber, min, max, source: 'random.org', timestamp, ...input}`. */
  function SuccessFields(randomNumber: int, min: int, max: int, timestamp: string, input: Fields): Fields
  {
    Spread(GeneratedFields(randomNumber, min, max, timestamp), input)
  }

  /** `{error: message, ...input}`. */
  function ErrorFields(message: string, input: Fields): Fields
  {
    Spread(map[ErrorKey := Str(message)], input)
  }

  /** The spread keeps every field of either side, and the later one wins. */
  lemma SpreadMeaning(base: Fields, overlay: Fields)
    ensures Spread(base, overlay).Keys == base.Keys + overlay.Keys
    ensures forall k :: k in overlay ==> Spread(base, overlay)[k] == overlay[k]
    ensures forall k :: k in base && k !in overlay ==> Spread(base, overlay)[k] == base[k]
  {
  }

  /**
    A success record holds the five generated fields and every input field; each input
    field keeps its input value, and a generated field keeps its generated value only
    when the input has no field of that name.
   */
  lemma SuccessFieldsShape(randomNumber: int, min: int, max: int, timestamp: string, input: Fields)
    ensures var r := SuccessFields(randomNumber, min, max, timestamp, input);
      && r.Keys == {RandomNumberKey, MinKey, MaxKey, SourceKey, TimestampKey} + input.Keys
      && (forall k :: k in input ==> r[k] == input[k])
      && (RandomNumberKey !in input ==> r[RandomNumberKey] == Num(randomNumber))
      && (MinKey !in input ==> r[MinKey] == Num(min))
      && (MaxKey !in input ==> r[MaxKey] == Num(max))
      && (SourceKey !in input ==> r[SourceKey] == Str(SourceName))
      && (TimestampKey !in input ==> r[TimestampKey] == Str(timestamp))
  {
  }

  /**
    An error record holds `error` and every input field, each with its input value; the
    message is visible only when the input has no `error` field of its own.
   */
  lemma ErrorFieldsShape(message: string, input: Fields)
    ensures var r := ErrorFields(message, input);
      && r.Keys == {ErrorKey} + input.Keys
      && (forall k :: k in input ==> r[k] == input[k])
      && (ErrorKey !in input ==> r[ErrorKey] == Str(message))
  {
  }
}
