/**
 * The few JavaScript semantics the controllers depend on: optional request
 * values, truthiness, `String.prototype.split(",")`, `Array.prototype.join(",")`
 * and the decimal rendering of a status code inside a template string.
 */
module Js {

  datatype Option<+T> = None | Some(value: T)

  /** `!!s` for an optional string: absent (`undefined`) and `""` are falsy. */
  predicate TruthyText(s: Option<string>) {
    s.Some? && s.value != ""
  }

  /**
   * A number in the request body: a JSON number, or text (a form field or a
   * JSON string) that the receiving code converts itself.
   */
  datatype BodyNumber = JsonNumber(number: real) | FormText(text: string)

  /** `!!x` for a body number: absent, `0` and `""` are falsy; any other text, `"0"` included, is truthy. */
  predicate TruthyBodyNumber(x: Option<BodyNumber>) {
    x.Some? &&
    match x.value
    case JsonNumber(v) => v != 0.0
    case FormText(t) => t != ""
  }

  /** `a || b` where `a` is an optional string and `b` the fallback. */
  function OrText(a: Option<string>, b: string): (r: string)
    ensures TruthyText(a) ==> r == a.value
    ensures !TruthyText(a) ==> r == b
    ensures TruthyText(Some(r)) <==> TruthyText(a) || TruthyText(Some(b))
  {
    if TruthyText(a) then a.value else b
  }

  /** Number of commas in `s`. */
  function CountCommas(s: string): nat {
    if s == [] then 0 else (if s[0] == ',' then 1 else 0) + CountCommas(s[1..])
  }

  /** `s.split(",")`: the maximal comma-free pieces of `s`, in order; never empty. */
  function Split(s: string): (parts: seq<string>)
    ensures |parts| > 0
  {
    if s == [] then [""]
    else
      var rest := Split(s[1..]);
      if s[0] == ',' then [""] + rest
      else [[s[0]] + rest[0]] + rest[1..]
  }

  /** `parts.join(",")`. */
  function Join(parts: seq<string>): string {
    if parts == [] then ""
    else if |parts| == 1 then parts[0]
    else parts[0] + "," + Join(parts[1..])
  }

  /** A piece of a split contains no separator. */
  predicate CommaFree(s: string) {
    forall k :: 0 <= k < |s| ==> s[k] != ','
  }

  /** Splitting on "," and joining with "," gives the input back. */
  lemma {:induction false} JoinSplit(s: string)
    ensures Join(Split(s)) == s
  {
    if s != [] {
      var rest := Split(s[1..]);
      JoinSplit(s[1..]);
      if s[0] == ',' {
        assert Split(s) == [""] + rest;
        assert s == [s[0]] + s[1..];
      } else {
        var parts := [[s[0]] + rest[0]] + rest[1..];
        assert Split(s) == parts;
        if |rest| == 1 {
          assert Join(parts) == [s[0]] + rest[0];
        } else {
          assert parts[1..] == rest[1..];
          assert Join(rest) == rest[0] + "," + Join(rest[1..]);
          assert Join(parts) == ([s[0]] + rest[0]) + "," + Join(rest[1..]);
        }
        assert s == [s[0]] + s[1..];
      }
    }
  }

  /** No piece of a split contains a comma. */
  lemma {:induction false} SplitPiecesCommaFree(s: string)
    ensures forall i :: 0 <= i < |Split(s)| ==> CommaFree(Split(s)[i])
  {
    if s != [] {
      SplitPiecesCommaFree(s[1..]);
      var rest := Split(s[1..]);
      if s[0] != ',' {
        var head := [s[0]] + rest[0];
        assert CommaFree(rest[0]);
        assert forall k :: 0 <= k < |head| ==> head[k] == if k == 0 then s[0] else rest[0][k - 1];
        assert CommaFree(head);
      }
    }
  }

  /** There is one more piece than there are commas. */
  lemma {:induction false} SplitCount(s: string)
    ensures |Split(s)| == CountCommas(s) + 1
  {
    if s != [] {
      SplitCount(s[1..]);
    }
  }

  /** Joining comma-free pieces and splitting again gives the pieces back. */
  lemma {:induction false} SplitJoin(parts: seq<string>)
    requires |parts| > 0
    requires forall i :: 0 <= i < |parts| ==> CommaFree(parts[i])
    ensures Split(Join(parts)) == parts
  {
    if |parts| == 1 {
      SplitCommaFree(parts[0]);
    } else {
      SplitJoin(parts[1..]);
      SplitPrefix(parts[0], Join(parts[1..]));
      assert parts == [parts[0]] + parts[1..];
    }
  }

  /** A comma-free string splits into itself. */
  lemma {:induction false} SplitCommaFree(s: string)
    requires CommaFree(s)
    ensures Split(s) == [s]
  {
    if s != [] {
      assert CommaFree(s[1..]) by {
        assert forall k :: 0 <= k < |s[1..]| ==> s[1..][k] == s[k + 1];
      }
      SplitCommaFree(s[1..]);
      assert s == [s[0]] + s[1..];
    }
  }

  /** A comma-free prefix followed by a comma becomes the first piece. */
  lemma {:induction false} SplitPrefix(p: string, t: string)
    requires CommaFree(p)
    ensures Split(p + "," + t) == [p] + Split(t)
  {
    if p == [] {
      assert p + "," + t == [','] + t;
      assert ([','] + t)[1..] == t;
    } else {
      var tail := p[1..];
      assert CommaFree(tail) by {
        assert forall k :: 0 <= k < |tail| ==> tail[k] == p[k + 1];
      }
      SplitPrefix(tail, t);
      var s := p + "," + t;
      assert s[0] == p[0];
      assert s[1..] == tail + "," + t;
      assert p == [p[0]] + tail;
    }
  }

  /** The decimal digit for `d < 10`. */
  function Digit(d: nat): char
    requires d < 10
  {
    "0123456789"[d]
  }

  /** The decimal rendering `${n}` of a natural number. */
  function Decimal(n: nat): (s: string)
    ensures |s| > 0
  {
    if n < 10 then [Digit(n)] else Decimal(n / 10) + [Digit(n % 10)]
  }

  /** Different numbers have different decimal renderings. */
  lemma {:induction false} DecimalInjective(a: nat, b: nat)
    requires Decimal(a) == Decimal(b)
    ensures a == b
  {
    if a >= 10 && b >= 10 {
      var da, db := Decimal(a), Decimal(b);
      assert da[|da| - 1] == Digit(a % 10) && db[|db| - 1] == Digit(b % 10);
      assert da[..|da| - 1] == Decimal(a / 10);
      assert db[..|db| - 1] == Decimal(b / 10);
      DecimalInjective(a / 10, b / 10);
    }
  }
}
