/** JSON values as the runtime holds them, and how they travel as text. */
module Json {
  datatype Option<+T> = None | Some(value: T)

  /**
   A number literal beyond the double range parses to an infinity, and `-0` to a zero of its own, which
   is written as 0; NaN only arises in memory.
   */
  datatype Json =
    | Null
    | Bool(b: bool)
    | Number(n: real)
    | MinusZero
    | Infinite(negative: bool)
    | NotANumber
    | Str(s: string)
    | Arr(items: seq<Json>)
    | Obj(fields: map<string, Json>)

  type Record = map<string, Json>

  function Get(record: Record, key: string): Option<Json> {
    if key in record then Some(record[key]) else None
  }

  /** The real number that a finite number stands for. */
  function RealOf(j: Json): Option<real> {
    match j
    case Number(n) => Some(n)
    case MinusZero => Some(0.0)
    case _ => None
  }

  // ----- Transport ------------------------------------------------------------------------------

  /**
   What is left of a value that is written as text and parsed again: JSON text has no infinity and no
   NaN, and a negative zero loses its sign.
   */
  function Carried(j: Json): Json {
    match j
    case MinusZero => Number(0.0)
    case Infinite(_) => Null
    case NotANumber => Null
    case Arr(items) => Arr(seq(|items|, i requires 0 <= i < |items| => Carried(items[i])))
    case Obj(fields) => Obj(map k | k in fields :: Carried(fields[k]))
    case _ => j
  }

  /** Every number in the value is one that JSON text can carry: finite, and not a negative zero. */
  predicate AllCarried(j: Json) {
    match j
    case MinusZero => false
    case Infinite(_) => false
    case NotANumber => false
    case Arr(items) => forall i :: 0 <= i < |items| ==> AllCarried(items[i])
    case Obj(fields) => forall k :: k in fields ==> AllCarried(fields[k])
    case _ => true
  }

  lemma {:induction false} CarriedTravels(j: Json)
    ensures AllCarried(Carried(j))
  {
    match j
    case Arr(items) =>
      forall i | 0 <= i < |items| ensures AllCarried(Carried(items[i])) { CarriedTravels(items[i]); }
    case Obj(fields) =>
      forall k | k in fields ensures AllCarried(Carried(fields[k])) { CarriedTravels(fields[k]); }
    case _ =>
  }

  /** A value arrives unchanged exactly when JSON text can carry all its numbers. */
  lemma {:induction false} ArrivesUnchanged(j: Json)
    ensures Carried(j) == j <==> AllCarried(j)
  {
    match j
    case Arr(items) =>
      forall i | 0 <= i < |items| ensures Carried(items[i]) == items[i] <==> AllCarried(items[i]) {
        ArrivesUnchanged(items[i]);
      }
      if Carried(j) == j {
        assert forall i :: 0 <= i < |items| ==> Carried(j).items[i] == items[i];
      }
    case Obj(fields) =>
      forall k | k in fields ensures Carried(fields[k]) == fields[k] <==> AllCarried(fields[k]) {
        ArrivesUnchanged(fields[k]);
      }
      if Carried(j) == j {
        assert forall k :: k in fields ==> Carried(j).fields[k] == fields[k];
      }
    case _ =>
  }

  /** The codec the runtime uses. */
  datatype Codec = Codec(parse: string -> Option<Json>, stringify: Json -> string)

  /** `JSON.parse(JSON.stringify(j))` for this value. */
  predicate Transports(codec: Codec, j: Json) { codec.parse(codec.stringify(j)) == Some(Carried(j)) }

  /** No numbers at all. */
  predicate NumberFree(j: Json) {
    match j
    case Number(_) => false
    case MinusZero => false
    case Infinite(_) => false
    case NotANumber => false
    case Arr(items) => forall i :: 0 <= i < |items| ==> NumberFree(items[i])
    case Obj(fields) => forall k :: k in fields ==> NumberFree(fields[k])
    case _ => true
  }

  /**
   The runtime's codec as far as it is relied on: it refuses the empty text, it carries every value
   that some text stands for and every value without numbers, and what text cannot carry is written like what arrives.
   */
  ghost predicate IsFaithful(codec: Codec) {
    && codec.parse("").None?
    && (forall text :: codec.parse(text).Some? ==>
          Transports(codec, codec.parse(text).value)
          && codec.stringify(Carried(codec.parse(text).value)) == codec.stringify(codec.parse(text).value))
    && (forall j :: NumberFree(j) ==> Transports(codec, j))
  }

  lemma {:induction false} FaithfulCarries(codec: Codec, j: Json)
    requires IsFaithful(codec) && NumberFree(j)
    ensures Transports(codec, j)
  {
  }
}
