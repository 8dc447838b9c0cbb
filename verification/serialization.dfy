/**
 * The payload codec of the cache storage. PHP's `serialize`/`unserialize` are
 * stood in for by a codec over null, booleans and strings written in the same
 * textual style ("N;", "b:1;", "s:\"...\";", without PHP's length field).
 * Decoding is partial: a payload that is not one of these forms fails.
 */
module Serialization {
  import opened Wrappers
  import Php

  datatype Value = Null | Bool(b: bool) | Str(s: string)

  function Serialize(v: Value): string {
    match v
    case Null => "N;"
    case Bool(b) => if b then "b:1;" else "b:0;"
    case Str(s) => "s:\"" + s + "\";"
  }

  /** None stands for `unserialize` throwing on a corrupt payload. */
  function Unserialize(p: string): Option<Value> {
    if p == "N;" then Some(Null)
    else if p == "b:0;" then Some(Bool(false))
    else if p == "b:1;" then Some(Bool(true))
    else if |p| >= 5 && p[..3] == "s:\"" && p[|p| - 2..] == "\";" then Some(Str(p[3..|p| - 2]))
    else None
  }

  /** Decoding undoes encoding, and an encoded value is never a falsy string. */
  lemma UnserializeSerialize(v: Value)
    ensures Unserialize(Serialize(v)) == Some(v)
    ensures Php.Truthy(Serialize(v))
  {
    if v.Str? {
      var p := Serialize(v);
      assert p[..3] == "s:\"";
      assert p[|p| - 2..] == "\";";
      assert p[3..|p| - 2] == v.s;
    }
  }

  /** Every payload that decodes is the encoding of what it decodes to. */
  lemma SerializeUnserialize(p: string)
    requires Unserialize(p).Some?
    ensures Serialize(Unserialize(p).value) == p
  {
    if |p| >= 5 && p[..3] == "s:\"" && p[|p| - 2..] == "\";" && p != "N;" && p != "b:0;" && p != "b:1;" {
      assert p == p[..3] + p[3..|p| - 2] + p[|p| - 2..];
    }
  }
}
