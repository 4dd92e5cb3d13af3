/**
  Shared vocabulary: optional values, results, and MongoDB object ids.
 */
module Common {

  /** A JavaScript value that may be `undefined`/`null`. */
  datatype Option<+T> = None | Some(value: T) {
    function GetOr(default: T): T {
      match this
      case Some(v) => v
      case None => default
    }
  }

  /** The outcome of an operation that may throw. */
  datatype Result<+T, +E> = Ok(value: T) | Err(error: E)

  /** Document ids (MongoDB ObjectIds) in their hexadecimal text form. */
  type Id = string

  predicate IsHexDigit(c: char) {
    ('0' <= c <= '9') || ('a' <= c <= 'f') || ('A' <= c <= 'F')
  }

  /** Whether mongoose can cast a path or query value to an ObjectId: 24 hexadecimal digits.
      Casting anything else throws a CastError. */
  predicate IsObjectId(s: string) {
    |s| == 24 && forall i :: 0 <= i < |s| ==> IsHexDigit(s[i])
  }

  /** A hexadecimal digit as `ObjectId.toString()` writes it: lower case. */
  function LowerHex(c: char): char {
    if 'A' <= c <= 'F' then (c as int + 32) as char else c
  }

  /** The text form of a stored ObjectId: 24 lower-case hexadecimal digits. */
  predicate IsCanonicalId(s: string) {
    |s| == 24 && forall i :: 0 <= i < |s| ==> ('0' <= s[i] <= '9') || ('a' <= s[i] <= 'f')
  }

  /** Casting a path or query value to an ObjectId and reading it back: the digits are
      parsed without regard to case, so the id denoted is the lower-case spelling. */
  function CastId(s: string): (id: Id)
    requires IsObjectId(s)
    ensures IsCanonicalId(id) && |id| == |s|
    ensures forall i :: 0 <= i < |s| ==> id[i] == LowerHex(s[i])
    ensures IsCanonicalId(s) ==> id == s
  {
    seq(|s|, i requires 0 <= i < |s| => LowerHex(s[i]))
  }

  /** Every stored id is an ObjectId, and casting it gives it back. */
  lemma CanonicalIsObjectId(s: string)
    requires IsCanonicalId(s)
    ensures IsObjectId(s) && CastId(s) == s
  {
  }

  /** `order` lists every key of `m` exactly once: the order in which a collection scan
      returns the documents (MongoDB's natural order, taken here to be insertion order). */
  ghost predicate Enumerates<V>(order: seq<Id>, m: map<Id, V>) {
    && (forall i, j :: 0 <= i < j < |order| ==> order[i] != order[j])
    && (forall i :: 0 <= i < |order| ==> order[i] in m)
    && (forall id :: id in m ==> id in order)
  }
}
