/** Decoded JSON request bodies and the few Python operations the
    /parallels/ handlers apply to them: membership (`key in v`),
    subscript (`v[key]`) and `str(v)`. */
module Values {

  datatype Option<+T> = None | Some(value: T)

  datatype Result<+T, +E> = Ok(value: T) | Err(error: E)

  /** A decoded JSON value (numbers are integers only). */
  datatype Value =
    | Null
    | Bool(b: bool)
    | Num(n: int)
    | Str(s: string)
    | Arr(items: seq<Value>)
    | Obj(fields: map<string, Value>)

  /** The Python exceptions that escape a handler (Flask answers them with 500). */
  datatype Fault = TypeError | KeyError | AttributeError

  /** `key in v` is defined for dicts, lists and strings; on any other value it raises TypeError. */
  predicate IsContainer(v: Value) {
    v.Obj? || v.Arr? || v.Str?
  }

  /** `key in v` for a string key: a dict key, a list member, or a substring. */
  predicate Has(v: Value, key: string)
    requires IsContainer(v)
  {
    match v
    case Obj(m) => key in m
    case Arr(xs) => Str(key) in xs
    case Str(s) => Occurs(key, s)
  }

  /** `needle in haystack` on Python strings. */
  predicate Occurs(needle: string, haystack: string) {
    needle <= haystack || (haystack != [] && Occurs(needle, haystack[1..]))
  }

  /** `v[key]`: a dict without the key raises KeyError, a list or a string TypeError. */
  function Get(v: Value, key: string): Result<Value, Fault> {
    if v.Obj? then
      if key in v.fields then Ok(v.fields[key]) else Err(KeyError)
    else Err(TypeError)
  }

  /** `str(v)`. Lists and dicts are shown as a placeholder. */
  function Show(v: Value): string {
    match v
    case Null => "None"
    case Bool(b) => if b then "True" else "False"
    case Num(n) => if n < 0 then "-" + Digits(-n) else Digits(n)
    case Str(s) => s
    case Arr(_) => "[...]"
    case Obj(_) => "{...}"
  }

  /** Decimal digits of a natural number. */
  function Digits(n: nat): string {
    if n < 10 then [DigitChar(n)] else Digits(n / 10) + [DigitChar(n % 10)]
  }

  function DigitChar(d: nat): char
    requires d < 10
  {
    "0123456789"[d]
  }

  /** `sep.join(xs)`. */
  function Join(sep: string, xs: seq<string>): string {
    if xs == [] then ""
    else if |xs| == 1 then xs[0]
    else xs[0] + sep + Join(sep, xs[1..])
  }

  /** A string found in a tail is found in the whole. */
  lemma {:induction false} OccursAfter(needle: string, prefix: string, tail: string)
    requires Occurs(needle, tail)
    ensures Occurs(needle, prefix + tail)
    decreases |prefix|
  {
    if prefix == [] {
      assert prefix + tail == tail;
    } else {
      assert (prefix + tail)[1..] == prefix[1..] + tail;
      OccursAfter(needle, prefix[1..], tail);
    }
  }

  /** A text that opens with `opening` and goes on with joined strings
      starts with the opening and contains every one of the strings. */
  lemma JoinedAfter(opening: string, sep: string, xs: seq<string>)
    ensures opening <= opening + Join(sep, xs)
    ensures forall x <- xs :: Occurs(x, opening + Join(sep, xs))
  {
    JoinNames(sep, xs);
    forall x <- xs
      ensures Occurs(x, opening + Join(sep, xs))
    {
      OccursAfter(x, opening, Join(sep, xs));
    }
  }

  /** Every joined string is found in the joined text. */
  lemma {:induction false} JoinNames(sep: string, xs: seq<string>)
    ensures forall x <- xs :: Occurs(x, Join(sep, xs))
    decreases |xs|
  {
    if |xs| > 1 {
      JoinNames(sep, xs[1..]);
      forall x <- xs
        ensures Occurs(x, Join(sep, xs))
      {
        if x == xs[0] {
          assert x <= Join(sep, xs);
        } else {
          assert x in xs[1..];
          assert Join(sep, xs) == (xs[0] + sep) + Join(sep, xs[1..]);
          OccursAfter(x, xs[0] + sep, Join(sep, xs[1..]));
        }
      }
    } else if |xs| == 1 {
      assert Join(sep, xs) == xs[0];
      assert xs[0] <= xs[0];
    }
  }

  predicate NoDuplicates<T(==)>(s: seq<T>) {
    forall i, j :: 0 <= i < j < |s| ==> s[i] != s[j]
  }
}
