/**
 * The string operations the error formatter is built from: JavaScript's
 * `Array.prototype.join`, its inverse `String.prototype.split`, and the
 * decimal rendering `String(n)` of an array index.
 */
module Strings {

  /** The parts with `sep` between each two neighbours (`parts.join(sep)`). */
  function Join(sep: string, parts: seq<string>): string
  {
    if |parts| == 0 then ""
    else if |parts| == 1 then parts[0]
    else parts[0] + sep + Join(sep, parts[1..])
  }

  /** `s.split(sep)`: `s` cut at every occurrence of `sep`, scanning left to right. */
  function Split(s: string, sep: string): seq<string>
    requires |sep| > 0
  {
    SplitFrom(s, sep, "")
  }

  /** Split, where `cur` is the part read so far. */
  function SplitFrom(s: string, sep: string, cur: string): (parts: seq<string>)
    requires |sep| > 0
    ensures |parts| > 0
    decreases |s|
  {
    if |s| == 0 then [cur]
    else if sep <= s then [cur] + SplitFrom(s[|sep|..], sep, "")
    else SplitFrom(s[1..], sep, cur + [s[0]])
  }

  /** No occurrence of `sep` starts inside `x`, even when `x` is followed by `sep`. */
  predicate Free(x: string, sep: string)
  {
    forall j | 0 <= j < |x| :: !(sep <= x[j..] + sep)
  }

  /** Whether `sep` starts a string depends only on its first |sep| characters. */
  lemma PrefixThrough(a: string, t: string, sep: string)
    requires sep <= t
    ensures sep <= a + t <==> sep <= a + sep
  {
    assert (a + t)[..|sep|] == (a + sep)[..|sep|];
  }

  /** Reading a part that holds no separator just accumulates it. */
  lemma {:induction false} SplitPiece(x: string, t: string, sep: string, cur: string)
    requires |sep| > 0 && Free(x, sep)
    requires t == [] || sep <= t
    ensures SplitFrom(x + t, sep, cur) == SplitFrom(t, sep, cur + x)
    decreases |x|
  {
    if |x| == 0 {
      assert x + t == t;
      assert cur + x == cur;
    } else {
      var s := x + t;
      assert x[0..] == x;
      assert !(sep <= x + sep);
      if t == [] {
        assert s == x;
      } else {
        PrefixThrough(x, t, sep);
      }
      assert s[1..] == x[1..] + t;
      assert Free(x[1..], sep) by {
        forall j | 0 <= j < |x[1..]|
          ensures !(sep <= x[1..][j..] + sep)
        {
          assert x[1..][j..] == x[j + 1..];
        }
      }
      SplitPiece(x[1..], t, sep, cur + [x[0]]);
      assert cur + [x[0]] + x[1..] == cur + x;
    }
  }

  /**
   * Split undoes Join when no part holds the separator: the joined string
   * has exactly one entry per part, in the original order.
   */
  lemma {:induction false} SplitJoin(parts: seq<string>, sep: string)
    requires |sep| > 0 && |parts| > 0
    requires forall k | 0 <= k < |parts| :: Free(parts[k], sep)
    ensures Split(Join(sep, parts), sep) == parts
    decreases |parts|
  {
    if |parts| == 1 {
      SplitPiece(parts[0], [], sep, "");
      assert parts[0] + [] == parts[0];
      assert "" + parts[0] == parts[0];
      assert parts == [parts[0]];
    } else {
      var rest := Join(sep, parts[1..]);
      assert Join(sep, parts) == parts[0] + (sep + rest);
      assert sep <= sep + rest;
      SplitPiece(parts[0], sep + rest, sep, "");
      assert "" + parts[0] == parts[0];
      assert (sep + rest)[|sep|..] == rest;
      assert SplitFrom(sep + rest, sep, parts[0]) == [parts[0]] + SplitFrom(rest, sep, "");
      SplitJoin(parts[1..], sep);
      assert parts == [parts[0]] + parts[1..];
    }
  }

  /** Join's result is empty exactly when every part is, and there is at most one. */
  lemma {:induction false} JoinEmpty(sep: string, parts: seq<string>)
    requires |sep| > 0
    ensures Join(sep, parts) == "" <==> |parts| == 0 || (|parts| == 1 && parts[0] == "")
    decreases |parts|
  {
    if |parts| > 1 {
      assert |Join(sep, parts)| >= |sep|;
    }
  }

  /** A string without the separator's first character cannot hold the separator. */
  lemma FreeWithout(x: string, sep: string)
    requires |sep| > 0 && sep[0] !in x
    ensures Free(x, sep)
  {
    forall j | 0 <= j < |x|
      ensures !(sep <= x[j..] + sep)
    {
      assert (x[j..] + sep)[0] == x[j];
    }
  }

  /** A character found in neither the separator nor any part is not in the joined string. */
  lemma {:induction false} JoinAvoids(sep: string, parts: seq<string>, c: char)
    requires c !in sep
    requires forall k | 0 <= k < |parts| :: c !in parts[k]
    ensures c !in Join(sep, parts)
    decreases |parts|
  {
    if |parts| > 1 {
      JoinAvoids(sep, parts[1..], c);
      assert Join(sep, parts) == parts[0] + sep + Join(sep, parts[1..]);
    }
  }

  function DecimalDigit(d: nat): (c: char)
    requires d < 10
    ensures '0' <= c <= '9'
  {
    "0123456789"[d]
  }

  /** `String(n)` for an array index: its decimal digits, most significant first. */
  function NatToString(n: nat): (r: string)
    ensures |r| > 0
    ensures forall k | 0 <= k < |r| :: '0' <= r[k] <= '9'
    decreases n
  {
    if n < 10 then [DecimalDigit(n)] else NatToString(n / 10) + [DecimalDigit(n % 10)]
  }

  /** The number a string of decimal digits denotes; the inverse of NatToString. */
  function DigitsValue(s: string): nat
    requires forall k | 0 <= k < |s| :: '0' <= s[k] <= '9'
    decreases |s|
  {
    if |s| == 0 then 0
    else 10 * DigitsValue(s[..|s| - 1]) + ((s[|s| - 1] as int - '0' as int) as nat)
  }

  lemma {:induction false} DigitsValueOfNatToString(n: nat)
    ensures DigitsValue(NatToString(n)) == n
    decreases n
  {
    var r := NatToString(n);
    if n < 10 {
      assert r[..0] == [];
      assert "0123456789"[n] as int - '0' as int == n;
    } else {
      DigitsValueOfNatToString(n / 10);
      assert r[..|r| - 1] == NatToString(n / 10);
      assert "0123456789"[n % 10] as int - '0' as int == n % 10;
    }
  }

  /** A rendered index never contains `sep` when `sep` starts with a non-digit. */
  lemma NatToStringFree(n: nat, sep: string)
    requires |sep| > 0 && !('0' <= sep[0] <= '9')
    ensures Free(NatToString(n), sep)
  {
    var r := NatToString(n);
    forall j | 0 <= j < |r|
      ensures !(sep <= r[j..] + sep)
    {
      assert (r[j..] + sep)[0] == r[j];
    }
  }
}
