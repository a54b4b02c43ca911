/**
 * Values and containers shared by the model of the revisioning core.
 *
 * PHP arrays play two roles in the source: the attribute snapshots are only
 * read and unset by key, and are modelled as maps; the dirty-field array is
 * iterated with `foreach`, in insertion order, and is modelled as a sequence
 * of key/value pairs.
 */
module Base {

  /** Some/None, standing for a PHP value that may be absent or null */
  datatype Option<+T> = None | Some(value: T) {

    /** The wrapped value, or `default` when there is none */
    function GetOr(default: T): T {
      match this
      case Some(v) => v
      case None => default
    }
  }

  /** Either a value or the error the source raises instead of returning */
  datatype Result<+R, +E> = Success(value: R) | Failure(error: E)

  /** A PHP value as the core tells values apart: `null`, a scalar held as
      its string conversion (`true` is "1", `false` is ""), or an object such
      as a DateTime, the values `is_object` recognises. */
  datatype Value = Null | Scalar(text: string) | Object(className: string)

  /** A PHP array that is only read and unset by key */
  type Table = map<string, Value>

  /** A PHP array that is iterated in insertion order */
  type Dict = seq<(string, Value)>

  /** `$t[$k]`: reading a missing key yields null */
  function Read(t: Table, k: string): Value {
    if k in t then t[k] else Null
  }

  /** `isset($t[$k])`: the key is present and its value is not null */
  predicate Isset(t: Table, k: string) {
    k in t && !t[k].Null?
  }

  /** Some entry of `d` has the key `k` */
  predicate HasKey(d: Dict, k: string) {
    exists e :: e in d && e.0 == k
  }
}
