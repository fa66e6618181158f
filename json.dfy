/**
 A decoded JSON record as the Python code sees it, together with the few
 pieces of Python semantics that the record-reshaping code relies on:
 truthiness (`not x`), `dict.get`, what a `for` loop iterates over, and
 `str(i)` of a list index.
 */
module PyJson {

  /** A value produced by decoding a storefront API response. A dict keeps
      its (key, value) pairs in insertion order, which is the order Python
      iterates them in; numbers stand for both Python ints and floats. */
  datatype Json =
    | JNull
    | JBool(b: bool)
    | JNum(n: real)
    | JStr(s: string)
    | JArr(items: seq<Json>)
    | JObj(fields: seq<(string, Json)>)
  {
    /** Neither a dict nor a list: a value that flattening stores as it is. */
    predicate IsScalar() {
      !JArr? && !JObj?
    }
  }

  /** The two Python exceptions the reshaping code can raise on a record of
      an unexpected shape: calling `.get`/`.items` on something that is not a
      dict, and iterating over something that is not iterable. */
  datatype PyError = AttributeError | TypeError

  datatype Result<T> = Ok(value: T) | Err(error: PyError) {
    /** The value, or `default` when an exception was raised. */
    function GetOr(default: T): T {
      if Ok? then value else default
    }
  }

  /** A value that may be absent, as Python's `None` stands for one. */
  datatype Option<T> = None | Some(value: T)

  /** `not j` in Python. */
  predicate Falsy(j: Json) {
    match j
    case JNull => true
    case JBool(b) => !b
    case JNum(n) => n == 0.0
    case JStr(s) => s == ""
    case JArr(items) => items == []
    case JObj(fields) => fields == []
  }

  /** True when some pair of the dict has the key. */
  predicate HasKey(fields: seq<(string, Json)>, key: string) {
    exists i :: 0 <= i < |fields| && fields[i].0 == key
  }

  /** `d.get(key, default)` on the pairs of the dict `d`: the value of the
      first pair carrying the key, or the default when there is none. */
  function Get(fields: seq<(string, Json)>, key: string, default: Json): Json {
    if fields == [] then default
    else if fields[0].0 == key then fields[0].1
    else Get(fields[1..], key, default)
  }

  /** `.get` finds the first pair carrying the key, and falls back to the
      default exactly when no pair carries it. */
  lemma {:induction false} GetFirst(fields: seq<(string, Json)>, key: string, default: Json)
    ensures !HasKey(fields, key) ==> Get(fields, key, default) == default
    ensures HasKey(fields, key) ==>
      exists i :: 0 <= i < |fields| && fields[i].0 == key && Get(fields, key, default) == fields[i].1 &&
        forall j :: 0 <= j < i ==> fields[j].0 != key
    decreases |fields|
  {
    if fields != [] && fields[0].0 != key {
      var rest := fields[1..];
      GetFirst(rest, key, default);
      assert HasKey(rest, key) ==> HasKey(fields, key) by {
        if HasKey(rest, key) {
          var i :| 0 <= i < |rest| && rest[i].0 == key;
          assert fields[i + 1].0 == key;
        }
      }
      assert !HasKey(rest, key) ==> !HasKey(fields, key) by {
        if HasKey(fields, key) {
          var i :| 0 <= i < |fields| && fields[i].0 == key;
          assert i > 0 && rest[i - 1].0 == key;
        }
      }
      if HasKey(rest, key) {
        var i :| 0 <= i < |rest| && rest[i].0 == key && Get(rest, key, default) == rest[i].1 &&
          forall j :: 0 <= j < i ==> rest[j].0 != key;
        assert fields[i + 1].0 == key && Get(fields, key, default) == fields[i + 1].1;
        forall j | 0 <= j < i + 1 ensures fields[j].0 != key {
          if j > 0 { assert fields[j] == rest[j - 1]; }
        }
      }
    } else if fields != [] {
      assert HasKey(fields, key) by { assert fields[0].0 == key; }
    }
  }

  /** What `for a in j` iterates over: the elements of a list, the keys of
      a dict, the one-character strings of a string; anything else raises
      TypeError. */
  function Elements(j: Json): (r: Result<seq<Json>>)
    ensures r.Ok? <==> j.JArr? || j.JObj? || j.JStr?
    ensures j.JArr? ==> r == Ok(j.items)
    ensures r.Ok? && !j.JArr? ==> forall e :: e in r.value ==> e.JStr?
    ensures r.Ok? ==> (|r.value| == 0 <==> Falsy(j))
    ensures r.Err? ==> r.error == TypeError
    ensures j.JObj? ==> r == Ok(KeyStrings(j.fields))
    ensures j.JStr? ==> r == Ok(CharStrings(j.s))
  {
    match j
    case JArr(items) => Ok(items)
    case JObj(fields) => Ok(KeyStrings(fields))
    case JStr(s) => Ok(CharStrings(s))
    case _ => Err(TypeError)
  }

  /** The keys of a dict, in order, as strings. */
  function KeyStrings(fields: seq<(string, Json)>): (r: seq<Json>)
    ensures |r| == |fields|
    ensures forall e :: e in r ==> e.JStr?
    ensures forall i :: 0 <= i < |fields| ==> r[i] == JStr(fields[i].0)
    decreases |fields|
  {
    if fields == [] then [] else KeyStrings(fields[..|fields| - 1]) + [JStr(fields[|fields| - 1].0)]
  }

  /** The characters of a string, in order, as one-character strings. */
  function CharStrings(s: string): (r: seq<Json>)
    ensures |r| == |s|
    ensures forall e :: e in r ==> e.JStr?
    ensures forall i :: 0 <= i < |s| ==> r[i] == JStr([s[i]])
    decreases |s|
  {
    if s == [] then [] else CharStrings(s[..|s| - 1]) + [JStr([s[|s| - 1]])]
  }

  /** The decimal digit character of d. */
  function DigitChar(d: nat): char
    requires d < 10
  {
    "0123456789"[d]
  }

  /** `str(n)` for a non-negative integer: its decimal digits, no sign and no
      leading zero. */
  function NatToString(n: nat): string {
    if n < 10 then [DigitChar(n)] else NatToString(n / 10) + [DigitChar(n % 10)]
  }

  /** `str(n)` is a non-empty run of decimal digits without a leading zero. */
  lemma {:induction false} NatToStringDigits(n: nat)
    ensures |NatToString(n)| >= 1
    ensures forall k :: 0 <= k < |NatToString(n)| ==> '0' <= NatToString(n)[k] <= '9'
    ensures |NatToString(n)| > 1 ==> NatToString(n)[0] != '0'
  {
    if n >= 10 {
      NatToStringDigits(n / 10);
    }
  }

  /** Reads a string of decimal digits back as a number. */
  function ParseDigits(s: string): nat
    requires forall k :: 0 <= k < |s| ==> '0' <= s[k] <= '9'
  {
    if s == [] then 0
    else ParseDigits(s[..|s| - 1]) * 10 + ((s[|s| - 1] as int) - ('0' as int))
  }

  /** `str` of a list index loses nothing: parsing it gives the index back,
      so distinct indices render as distinct path segments. */
  lemma {:induction false} NatToStringRoundTrip(n: nat)
    ensures NatToStringDigitsHold(n) && ParseDigits(NatToString(n)) == n
  {
    NatToStringDigits(n);
    var s := NatToString(n);
    if n < 10 {
      assert s[..|s| - 1] == [];
    } else {
      NatToStringRoundTrip(n / 10);
      assert s[..|s| - 1] == NatToString(n / 10);
    }
  }

  /** The digits fact, as a condition (`ParseDigits` requires it). */
  predicate NatToStringDigitsHold(n: nat) {
    forall k :: 0 <= k < |NatToString(n)| ==> '0' <= NatToString(n)[k] <= '9'
  }

  lemma NatToStringInjective(m: nat, n: nat)
    ensures NatToString(m) == NatToString(n) ==> m == n
  {
    NatToStringRoundTrip(m);
    NatToStringRoundTrip(n);
  }
}
