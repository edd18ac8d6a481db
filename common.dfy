/** Values shared by every layer of the blog backend: optional values, the
    `{ status, message }` objects the controllers throw, the result of a write
    statement, and the shape of a JSON request body as the Joi schemas see it. */
module Common {

  datatype Option<T> = None | Some(value: T)

  /** A response message: literal text, Joi's `error.details[0].message`,
      which is abstracted to the key it complains about, or the message of
      an error raised by the MySQL driver, whose text is not modelled. */
  datatype Message = Text(text: string) | InvalidKey(key: string) | DriverError

  /** The `{ status, message }` object a controller throws. */
  datatype Failure = Failure(status: int, message: Message)

  datatype Result<T> = Ok(value: T) | Err(failure: Failure)

  /** What mysql2 returns for INSERT, UPDATE and DELETE: `affectedRows` and `insertId`. */
  datatype WriteResult = WriteResult(affectedRows: nat, insertId: int)

  /** The JSON value found under one key of a request body; `Missing` is an absent key. */
  datatype Field = Missing | Str(s: string) | Num(n: int) | Arr(items: seq<Field>) | Other

  /** JavaScript's `length` of a string: UTF-16 code units, so a character
      outside the Basic Multilingual Plane counts twice. */
  function Utf16Length(s: string): (n: nat)
    ensures |s| <= n <= 2 * |s|
    ensures (forall i :: 0 <= i < |s| ==> s[i] as int <= 0xFFFF) ==> n == |s|
  {
    if s == [] then 0
    else (if s[0] as int > 0xFFFF then 2 else 1) + Utf16Length(s[1..])
  }

  /** Joi `string().min(min).max(max).required()`; Joi measures `value.length`. */
  predicate StringOfLength(f: Field, min: nat, max: nat)
  {
    f.Str? && min <= Utf16Length(f.s) <= max
  }

  /** `Number.MAX_SAFE_INTEGER`, 2^53 - 1. */
  const MaxSafeInteger: int := 0x1F_FFFF_FFFF_FFFF

  /** Joi `number()`: by default it refuses numbers beyond the safe-integer range. */
  predicate SafeNumber(f: Field)
  {
    f.Num? && -MaxSafeInteger <= f.n <= MaxSafeInteger
  }

  /** Joi `array().items(number()).required()`. */
  predicate NumberArray(f: Field)
  {
    f.Arr? && forall i :: 0 <= i < |f.items| ==> SafeNumber(f.items[i])
  }

  function Numbers(items: seq<Field>): (ns: seq<int>)
    requires forall i :: 0 <= i < |items| ==> items[i].Num?
    ensures |ns| == |items|
    ensures forall i :: 0 <= i < |items| ==> ns[i] == items[i].n
  {
    seq(|items|, i requires 0 <= i < |items| => items[i].n)
  }

  function Elems<T>(s: seq<T>): set<T>
  {
    set x | x in s
  }

  predicate NoDuplicates<T(==)>(s: seq<T>)
  {
    forall i, j :: 0 <= i < j < |s| ==> s[i] != s[j]
  }

  /** A sequence has as many distinct elements as entries exactly when no entry repeats. */
  lemma {:induction false} ElemsCount<T>(s: seq<T>)
    ensures |Elems(s)| <= |s|
    ensures |Elems(s)| == |s| <==> NoDuplicates(s)
  {
    if s != [] {
      var tail := s[1..];
      ElemsCount(tail);
      assert Elems(s) == {s[0]} + Elems(tail);
      if s[0] in tail {
        assert Elems(s) == Elems(tail);
        var k :| 0 <= k < |tail| && tail[k] == s[0];
        assert s[k + 1] == s[0];
      } else {
        assert |Elems(s)| == 1 + |Elems(tail)|;
        if NoDuplicates(tail) {
          forall i, j | 0 <= i < j < |s| ensures s[i] != s[j] {
            if i == 0 {
              assert s[j] == tail[j - 1];
            } else {
              assert s[i] == tail[i - 1] && s[j] == tail[j - 1];
            }
          }
        } else {
          var i, j :| 0 <= i < j < |tail| && tail[i] == tail[j];
          assert s[i + 1] == s[j + 1];
        }
      }
    }
  }

  /** A subset is no larger than its superset, and as large only when equal. */
  lemma SubsetCount<T>(a: set<T>, b: set<T>)
    requires a <= b
    ensures |a| <= |b|
    ensures |a| == |b| ==> a == b
  {
    assert b == a + (b - a);
    assert a * (b - a) == {};
    if |a| == |b| {
      assert |b - a| == 0;
    }
  }
}
