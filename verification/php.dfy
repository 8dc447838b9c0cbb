/** The few PHP string semantics the storage and the extension depend on. */
module Php {

  /** PHP truthiness of a string: only "" and "0" are falsy. */
  predicate Truthy(s: string) {
    s != "" && s != "0"
  }

  /** `substr($s, $start)` for a non-negative start (PHP 8: "" once start reaches the end). */
  function Substr(s: string, start: nat): (r: string)
    ensures start <= |s| ==> s == s[..start] + r
    ensures |s| <= start ==> r == ""
  {
    if start < |s| then s[start..] else ""
  }

  /** `implode($glue, $parts)` for a one-character glue. */
  function Implode(glue: char, parts: seq<string>): string
    decreases |parts|
  {
    if |parts| == 0 then ""
    else if |parts| == 1 then parts[0]
    else parts[0] + [glue] + Implode(glue, parts[1..])
  }

  /** `explode($delimiter, $s)` for a one-character delimiter: never empty. */
  function Explode(delimiter: char, s: string): (parts: seq<string>)
    ensures |parts| >= 1
    decreases |s|
  {
    if |s| == 0 then [""]
    else if s[0] == delimiter then [""] + Explode(delimiter, s[1..])
    else
      var rest := Explode(delimiter, s[1..]);
      [[s[0]] + rest[0]] + rest[1..]
  }

  /** A word free of the delimiter is glued onto the first part of what follows it. */
  lemma {:induction false} ExplodeWord(delimiter: char, w: string, tail: string)
    requires delimiter !in w
    ensures Explode(delimiter, w + tail)
         == [w + Explode(delimiter, tail)[0]] + Explode(delimiter, tail)[1..]
    decreases |w|
  {
    if w == [] {
      assert w + tail == tail;
      var e := Explode(delimiter, tail);
      assert w + e[0] == e[0];
      assert e == [e[0]] + e[1..];
    } else {
      assert (w + tail)[0] == w[0];
      assert (w + tail)[1..] == w[1..] + tail;
      ExplodeWord(delimiter, w[1..], tail);
      assert [w[0]] + (w[1..] + Explode(delimiter, tail)[0]) == w + Explode(delimiter, tail)[0];
    }
  }

  /** Exploding an imploded non-empty list of delimiter-free parts gives the parts back. */
  lemma {:induction false} ExplodeImplode(delimiter: char, parts: seq<string>)
    requires |parts| >= 1
    requires forall p :: p in parts ==> delimiter !in p
    ensures Explode(delimiter, Implode(delimiter, parts)) == parts
    decreases |parts|
  {
    if |parts| == 1 {
      ExplodeWord(delimiter, parts[0], "");
      assert parts[0] + "" == parts[0];
    } else {
      var rest := Implode(delimiter, parts[1..]);
      var tail := [delimiter] + rest;
      assert Implode(delimiter, parts) == parts[0] + tail;
      ExplodeWord(delimiter, parts[0], tail);
      assert tail[1..] == rest;
      assert Explode(delimiter, tail) == [""] + Explode(delimiter, rest);
      assert forall p :: p in parts[1..] ==> p in parts;
      ExplodeImplode(delimiter, parts[1..]);
      assert parts[0] + "" == parts[0];
      assert parts == [parts[0]] + parts[1..];
    }
  }
}
