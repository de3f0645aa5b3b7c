/** JSON values, as `serde_json::Value`. */
module Json {
  import opened Basics

  /** A number is an integer or a float; a float stands for mantissa * 2^exponent. */
  datatype Numeral = Int(i: int) | Float(mantissa: int, exponent: int)
  {
    /** What the number is worth. */
    function Value(): real {
      if Int? then i as real else Scaled(mantissa as real, exponent)
    }
  }

  /** x * 2^exponent. */
  function Scaled(x: real, exponent: int): real
    decreases if exponent < 0 then -exponent else exponent
  {
    if exponent == 0 then x
    else if exponent > 0 then Scaled(2.0 * x, exponent - 1)
    else Scaled(x / 2.0, exponent + 1)
  }

  lemma {:induction false} ScaledIsLinear(x: real, exponent: int)
    ensures Scaled(2.0 * x, exponent) == 2.0 * Scaled(x, exponent)
    decreases if exponent < 0 then -exponent else exponent
  {
    if exponent > 0 {
      ScaledIsLinear(2.0 * x, exponent - 1);
    } else if exponent < 0 {
      ScaledIsLinear(x / 2.0, exponent + 1);
      assert 2.0 * x / 2.0 == 2.0 * (x / 2.0);
    }
  }

  /** Every step of the exponent doubles the value, so a float is worth mantissa * 2^exponent. */
  lemma ExponentDoubles(mantissa: int, exponent: int)
    ensures Float(mantissa, 0).Value() == mantissa as real
    ensures Float(mantissa, exponent + 1).Value() == 2.0 * Float(mantissa, exponent).Value()
  {
    if exponent >= 0 {
      ScaledIsLinear(mantissa as real, exponent);
    } else {
      ScaledIsLinear(mantissa as real / 2.0, exponent + 1);
    }
  }

  /** Numbers are equal only if they are of the same kind, and every float is written in one way: with an odd
      mantissa, or as zero. */
  type Number = n: Numeral | n.Int? || n.mantissa % 2 == 1 || (n.mantissa == 0 && n.exponent == 0) witness Int(0)

  datatype Json =
    | Null
    | Bool(b: bool)
    | Num(n: Number)
    | Str(s: string)
    | Arr(items: seq<Json>)
    | Obj(fields: map<string, Json>)
  {
    /** `Value::get` with a string key: present only in objects. */
    function Get(key: string): Option<Json> {
      if Obj? && key in fields then Some(fields[key]) else None
    }

    /** `Value::as_str`. */
    function AsStr(): Option<string> {
      if Str? then Some(s) else None
    }

    /** The string stored under `key`, if there is one. */
    function GetStr(key: string): Option<string> {
      match Get(key)
      case None => None
      case Some(v) => v.AsStr()
    }
  }

  /** A JSON text codec: `serde_json::from_str` and `serde_json::to_string`. */
  datatype Codec = Codec(parse: string -> Option<Json>, render: Json -> string)

  /** Reading back what was written for this value gives the value. */
  predicate Survives(codec: Codec, v: Json) {
    codec.parse(codec.render(v)) == Some(v)
  }

  /** Every value survives being written and read. */
  ghost predicate Faithful(codec: Codec) {
    forall v :: Survives(codec, v)
  }
}
