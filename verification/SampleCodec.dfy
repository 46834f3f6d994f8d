/**
 A codec that is faithful, so that what is proved under that assumption is not vacuous. It is a small
 prefix code; every text it reads stands for a value whose only numbers are zeros and infinities.
 */
module SampleCodec {
  import opened Json

  ghost function WriteText(s: string): string {
    if s == "" then "." else "," + [s[0]] + WriteText(s[1..])
  }

  /** One value; `j` bounds the values inside it. */
  ghost function WriteValue(j: Json): string
    decreases j, 1
  {
    match j
    case Null => "n"
    case Bool(b) => if b then "t" else "f"
    case Str(s) => "s" + WriteText(s)
    case Arr(items) => "a" + WriteItems(j, items)
    case Obj(fields) => "o" + WriteFields(j, fields)
    case Number(_) => "0"
    case _ => "i"
  }

  ghost function WriteItems(j: Json, items: seq<Json>): string
    requires forall i :: 0 <= i < |items| ==> items[i] < j
    decreases j, 0, |items|
  {
    if items == [] then "." else "," + WriteValue(items[0]) + WriteItems(j, items[1..])
  }

  ghost function WriteFields(j: Json, fields: map<string, Json>): string
    requires forall k :: k in fields ==> fields[k] < j
    decreases j, 0, |fields|
  {
    if fields == map[] then "."
    else
      var k :| k in fields;
      "," + WriteText(k) + WriteValue(fields[k]) + WriteFields(j, fields - {k})
  }

  ghost function ReadText(s: string): (r: Option<(string, string)>)
    ensures r.Some? ==> |r.value.1| < |s|
    decreases |s|
  {
    if s == "" then None
    else if s[0] == '.' then Some(("", s[1..]))
    else if s[0] != ',' || |s| == 1 then None
    else
      match ReadText(s[2..])
      case None => None
      case Some((text, rest)) => Some(([s[1]] + text, rest))
  }

  ghost function ReadValue(s: string): (r: Option<(Json, string)>)
    ensures r.Some? ==> |r.value.1| < |s|
    decreases |s|
  {
    if s == "" then None
    else if s[0] == 'n' then Some((Null, s[1..]))
    else if s[0] == 't' then Some((Bool(true), s[1..]))
    else if s[0] == 'f' then Some((Bool(false), s[1..]))
    else if s[0] == '0' then Some((Number(0.0), s[1..]))
    else if s[0] == '-' then Some((MinusZero, s[1..]))
    else if s[0] == 'i' then Some((Infinite(false), s[1..]))
    else if s[0] == 's' then
      match ReadText(s[1..]) { case None => None case Some((text, rest)) => Some((Str(text), rest)) }
    else if s[0] == 'a' then
      match ReadItems(s[1..]) { case None => None case Some((items, rest)) => Some((Arr(items), rest)) }
    else if s[0] == 'o' then
      match ReadFields(s[1..]) { case None => None case Some((fields, rest)) => Some((Obj(fields), rest)) }
    else None
  }

  ghost function ReadItems(s: string): (r: Option<(seq<Json>, string)>)
    ensures r.Some? ==> |r.value.1| < |s|
    decreases |s|
  {
    if s == "" then None
    else if s[0] == '.' then Some(([], s[1..]))
    else if s[0] != ',' then None
    else
      match ReadValue(s[1..])
      case None => None
      case Some((item, rest)) =>
        match ReadItems(rest)
        case None => None
        case Some((items, rest')) => Some(([item] + items, rest'))
  }

  ghost function ReadFields(s: string): (r: Option<(map<string, Json>, string)>)
    ensures r.Some? ==> |r.value.1| < |s|
    decreases |s|
  {
    if s == "" then None
    else if s[0] == '.' then Some((map[], s[1..]))
    else if s[0] != ',' then None
    else
      match ReadText(s[1..])
      case None => None
      case Some((key, rest)) =>
        match ReadValue(rest)
        case None => None
        case Some((value, rest')) =>
          match ReadFields(rest')
          case None => None
          case Some((fields, rest'')) => Some((fields[key := value], rest''))
  }

  /** Values whose only number is zero. */
  predicate Plain(j: Json) {
    match j
    case Number(n) => n == 0.0
    case MinusZero => false
    case Infinite(_) => false
    case NotANumber => false
    case Arr(items) => forall i :: 0 <= i < |items| ==> Plain(items[i])
    case Obj(fields) => forall k :: k in fields ==> Plain(fields[k])
    case _ => true
  }

  lemma {:induction false} NumberFreeIsPlain(j: Json)
    requires NumberFree(j)
    ensures Plain(j)
  {
    match j
    case Arr(items) => forall i | 0 <= i < |items| ensures Plain(items[i]) { NumberFreeIsPlain(items[i]); }
    case Obj(fields) => forall k | k in fields ensures Plain(fields[k]) { NumberFreeIsPlain(fields[k]); }
    case _ =>
  }

  // ----- Reading undoes writing -----------------------------------------------------------------

  lemma {:induction false} TextIsRead(s: string, rest: string)
    ensures ReadText(WriteText(s) + rest) == Some((s, rest))
    decreases |s|
  {
    var text := WriteText(s) + rest;
    if s == "" {
      assert text[1..] == rest;
    } else {
      var later := WriteText(s[1..]) + rest;
      assert text == [',', s[0]] + later && text[2..] == later;
      TextIsRead(s[1..], rest);
      assert [s[0]] + s[1..] == s;
    }
  }

  lemma {:induction false} ValueIsRead(j: Json, rest: string)
    requires Plain(j)
    ensures ReadValue(WriteValue(j) + rest) == Some((j, rest))
    decreases j, 1
  {
    var text := WriteValue(j) + rest;
    match j
    case Null => assert text[1..] == rest;
    case Bool(_) => assert text[1..] == rest;
    case Number(_) => assert text[1..] == rest;
    case Str(s) =>
      assert text[1..] == WriteText(s) + rest;
      TextIsRead(s, rest);
    case Arr(items) =>
      assert text[1..] == WriteItems(j, items) + rest;
      ItemsAreRead(j, items, rest);
    case Obj(fields) =>
      assert text[1..] == WriteFields(j, fields) + rest;
      FieldsAreRead(j, fields, rest);
    case _ =>
  }

  lemma ReadItem(s: string, item: Json, later: string)
    requires s != "" && s[0] == ',' && ReadValue(s[1..]) == Some((item, later)) && ReadItems(later).Some?
    ensures ReadItems(s) == Some(([item] + ReadItems(later).value.0, ReadItems(later).value.1))
  {
  }

  lemma {:induction false} ItemsAreRead(j: Json, items: seq<Json>, rest: string)
    requires forall i :: 0 <= i < |items| ==> items[i] < j && Plain(items[i])
    ensures ReadItems(WriteItems(j, items) + rest) == Some((items, rest))
    decreases j, 0, |items|
  {
    var text := WriteItems(j, items) + rest;
    if items == [] {
      assert text[1..] == rest;
    } else {
      var later := WriteItems(j, items[1..]) + rest;
      Regroup("", WriteValue(items[0]), WriteItems(j, items[1..]), rest);
      assert "," + "" + WriteValue(items[0]) == "," + WriteValue(items[0]);
      assert "" + (WriteValue(items[0]) + later) == WriteValue(items[0]) + later;
      ValueIsRead(items[0], later);
      ItemsAreRead(j, items[1..], rest);
      ReadItem(text, items[0], later);
      assert [items[0]] + items[1..] == items;
    }
  }

  lemma ReadField(s: string, key: string, after: string, value: Json, later: string)
    requires s != "" && s[0] == ',' && ReadText(s[1..]) == Some((key, after))
    requires ReadValue(after) == Some((value, later)) && ReadFields(later).Some?
    ensures ReadFields(s) == Some((ReadFields(later).value.0[key := value], ReadFields(later).value.1))
  {
  }

  /** The field that is written first. */
  lemma {:induction false} FirstField(j: Json, fields: map<string, Json>) returns (k: string)
    requires fields != map[] && forall k :: k in fields ==> fields[k] < j
    ensures k in fields
    ensures WriteFields(j, fields) == "," + WriteText(k) + WriteValue(fields[k]) + WriteFields(j, fields - {k})
  {
    k :| k in fields && WriteFields(j, fields)
      == "," + WriteText(k) + WriteValue(fields[k]) + WriteFields(j, fields - {k});
  }

  lemma {:induction false} FieldsAreRead(j: Json, fields: map<string, Json>, rest: string)
    requires forall k :: k in fields ==> fields[k] < j && Plain(fields[k])
    ensures ReadFields(WriteFields(j, fields) + rest) == Some((fields, rest))
    decreases j, 0, |fields|
  {
    var text := WriteFields(j, fields) + rest;
    if fields == map[] {
      assert text[1..] == rest;
    } else {
      var k := FirstField(j, fields);
      var others := fields - {k};
      var later := WriteFields(j, others) + rest;
      Regroup(WriteText(k), WriteValue(fields[k]), WriteFields(j, others), rest);
      TextIsRead(k, WriteValue(fields[k]) + later);
      ValueIsRead(fields[k], later);
      FieldsAreRead(j, others, rest);
      ReadField(text, k, WriteValue(fields[k]) + later, fields[k], later);
      PutBack(fields, k);
    }
  }

  lemma PutBack(fields: map<string, Json>, k: string)
    requires k in fields
    ensures (fields - {k})[k := fields[k]] == fields
  {
  }

  lemma Regroup(key: string, value: string, others: string, rest: string)
    ensures var text := "," + key + value + others + rest;
            text[0] == ',' && text[1..] == key + (value + (others + rest))
  {
  }

  lemma {:induction false} CarriedTwice(j: Json)
    ensures Carried(Carried(j)) == Carried(j)
  {
    CarriedTravels(j);
    ArrivesUnchanged(Carried(j));
  }

  /** What is left of what is read is plain. */
  predicate Readable(j: Json) { Plain(Carried(j)) }

  lemma {:induction false} PlainIsCarried(j: Json)
    requires Plain(j)
    ensures Carried(j) == j
  {
    PlainTravels(j);
    ArrivesUnchanged(j);
  }

  lemma {:induction false} PlainTravels(j: Json)
    requires Plain(j)
    ensures AllCarried(j)
  {
    match j
    case Arr(items) =>
      forall i | 0 <= i < |items| ensures AllCarried(items[i]) { PlainTravels(items[i]); }
    case Obj(fields) =>
      forall k | k in fields ensures AllCarried(fields[k]) { PlainTravels(fields[k]); }
    case _ =>
  }

  lemma {:induction false} ItemIsReadable(item: Json, items: seq<Json>)
    requires Readable(item) && Readable(Arr(items))
    ensures Readable(Arr([item] + items))
  {
    var all := [item] + items;
    forall i | 0 <= i < |all| ensures Plain(Carried(all[i])) {
      assert i > 0 ==> Carried(Arr(items)).items[i - 1] == Carried(items[i - 1]);
    }
  }

  lemma {:induction false} FieldIsReadable(key: string, value: Json, fields: map<string, Json>)
    requires Readable(value) && Readable(Obj(fields))
    ensures Readable(Obj(fields[key := value]))
  {
    var all := fields[key := value];
    forall k | k in all ensures Plain(Carried(all[k])) {
      assert k != key ==> Carried(Obj(fields)).fields[k] == Carried(fields[k]);
    }
  }

  lemma {:induction false} ReadIsReadable(s: string)
    ensures ReadValue(s).Some? ==> Readable(ReadValue(s).value.0)
    decreases |s|, 1
  {
    if s != "" {
      ReadItemsAreReadable(s[1..]);
      ReadFieldsAreReadable(s[1..]);
    }
  }

  lemma {:induction false} ReadItemsAreReadable(s: string)
    ensures ReadItems(s).Some? ==> Readable(Arr(ReadItems(s).value.0))
    decreases |s|, 0
  {
    if s != "" && s[0] == ',' && ReadValue(s[1..]).Some? {
      var (item, rest) := ReadValue(s[1..]).value;
      ReadIsReadable(s[1..]);
      ReadItemsAreReadable(rest);
      if ReadItems(rest).Some? {
        ReadItem(s, item, rest);
        ItemIsReadable(item, ReadItems(rest).value.0);
      }
    }
  }

  lemma {:induction false} ReadFieldsAreReadable(s: string)
    ensures ReadFields(s).Some? ==> Readable(Obj(ReadFields(s).value.0))
    decreases |s|, 0
  {
    if s != "" && s[0] == ',' && ReadText(s[1..]).Some? {
      var (key, after) := ReadText(s[1..]).value;
      ReadIsReadable(after);
      if ReadValue(after).Some? {
        var (value, rest) := ReadValue(after).value;
        ReadFieldsAreReadable(rest);
        if ReadFields(rest).Some? {
          ReadField(s, key, after, value, rest);
          FieldIsReadable(key, value, ReadFields(rest).value.0);
        }
      }
    }
  }

  // ----- The codec ------------------------------------------------------------------------------

  ghost function Parse(s: string): Option<Json> {
    match ReadValue(s)
    case None => None
    case Some((j, rest)) => if rest == "" then Some(j) else None
  }

  ghost function Stringify(j: Json): string { WriteValue(Carried(j)) }

  lemma {:induction false} ReadableIsCarried(j: Json)
    requires Readable(j)
    ensures Parse(Stringify(j)) == Some(Carried(j)) && Stringify(Carried(j)) == Stringify(j)
  {
    CarriedTwice(j);
    ValueIsRead(Carried(j), "");
    assert Stringify(j) + "" == Stringify(j);
  }

  lemma ReadsOneField(c: char, value: Json)
    requires ReadValue([c] + ".") == Some((value, "."))
    ensures Parse("o,,x." + [c] + ".") == Some(Obj(map["x" := value]))
  {
    var number := [c] + ".";
    var text := "," + ("x" + ("." + number));
    assert "o,,x." + [c] + "." == "o" + ("," + text) && ("o" + ("," + text))[1..] == "," + text;
    assert ("," + text)[1..] == text && text[2..] == "." + number && ("." + number)[1..] == number && "."[1..] == "";
    assert ReadText("." + number) == Some(("", number));
    assert ['x'] + "" == "x";
    assert ReadText(text) == Some(("x", number));
    assert ReadFields(".") == Some((map[], ""));
    ReadField("," + text, "x", number, value, ".");
    assert ReadFields("," + text) == Some((map["x" := value], ""));
  }

  /** There is a faithful codec, and one that reads a number beyond the double range and a negative zero. */
  lemma {:induction false} FaithfulCodecExists() returns (codec: Codec, huge: string, minus: string)
    ensures IsFaithful(codec)
    ensures codec.parse(huge) == Some(Obj(map["x" := Infinite(false)]))
    ensures codec.parse(minus) == Some(Obj(map["x" := MinusZero]))
  {
    codec := Codec(s => Parse(s), j => Stringify(j));
    huge, minus := "o,,x." + ['i'] + ".", "o,,x." + ['-'] + ".";
    assert (['i'] + ".")[1..] == "." && (['-'] + ".")[1..] == ".";
    ReadsOneField('i', Infinite(false));
    ReadsOneField('-', MinusZero);
    forall text | codec.parse(text).Some?
      ensures Transports(codec, codec.parse(text).value)
      ensures codec.stringify(Carried(codec.parse(text).value)) == codec.stringify(codec.parse(text).value)
    {
      ReadIsReadable(text);
      ReadableIsCarried(codec.parse(text).value);
    }
    forall j | NumberFree(j) ensures Transports(codec, j) {
      NumberFreeIsPlain(j);
      PlainIsCarried(j);
      ReadableIsCarried(j);
    }
  }
}
