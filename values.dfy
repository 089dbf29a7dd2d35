/**
 * The JavaScript values the library handles: what the msgpack decoder hands
 * back for a datagram, and what the caller passes as a group ID or as a host
 * record.
 */
module Values {

  newtype uint8 = x: int | 0 <= x < 0x100

  /**
   * A JavaScript value, as far as the schemas can tell values apart.
   * `Num` is a finite number; `Bin` is a Node `Buffer`; `Obj` is a plain
   * object with its own enumerable keys; `Other` stands for everything else
   * the decoder can produce (undefined, NaN, the infinities, BigInt, Map,
   * Date), which no schema of the library accepts anywhere.
   */
  datatype Value =
    | Null
    | Bool(b: bool)
    | Num(n: real)
    | Str(s: string)
    | Bin(bytes: seq<uint8>)
    | Arr(items: seq<Value>)
    | Obj(fields: map<string, Value>)
    | Other

  /**
   * The `length` of a JavaScript string: its count of UTF-16 code units.
   * A character outside the Basic Multilingual Plane takes a surrogate pair.
   */
  function Utf16Length(s: string): (n: nat)
    ensures |s| <= n <= 2 * |s|
  {
    if s == [] then 0
    else (if s[0] as int < 0x1_0000 then 1 else 2) + Utf16Length(s[1..])
  }

  /** Every character of `s` is a single UTF-16 code unit. */
  predicate InBmp(s: string) {
    forall i :: 0 <= i < |s| ==> s[i] as int < 0x1_0000
  }

  /** For text in the Basic Multilingual Plane, `length` counts characters. */
  lemma {:induction false} Utf16LengthOfBmp(s: string)
    requires InBmp(s)
    ensures Utf16Length(s) == |s|
  {
    if s != [] {
      assert InBmp(s[1..]) by {
        forall i | 0 <= i < |s[1..]| ensures s[1..][i] as int < 0x1_0000 {
          assert s[1..][i] == s[i + 1];
        }
      }
      Utf16LengthOfBmp(s[1..]);
    }
  }

  /** A character outside the Basic Multilingual Plane makes `length` exceed the character count. */
  lemma {:induction false} Utf16LengthBeyondBmp(s: string, i: nat)
    requires i < |s| && s[i] as int >= 0x1_0000
    ensures Utf16Length(s) > |s|
  {
    if i > 0 {
      Utf16LengthBeyondBmp(s[1..], i - 1);
    }
  }
}
