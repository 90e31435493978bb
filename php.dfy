/**
 * The handful of PHP built-ins the updater relies on: the string test of
 * empty(), strpos() used as a containment test, explode(), and PHP's
 * ordered arrays with string keys.  implode() is not called by the updater;
 * it is here as the inverse that states explode's round trip.
 */
module Php {

  /** empty() on a string: true exactly for "" and for "0". */
  predicate IsEmptyString(s: string) {
    s == "" || s == "0"
  }

  predicate StartsWith(s: string, prefix: string) {
    |prefix| <= |s| && s[..|prefix|] == prefix
  }

  /**
   * strpos($haystack, $needle) !== false.  As in PHP 8, the empty needle
   * is found (at offset 0) in every haystack.
   */
  predicate Contains(haystack: string, needle: string)
    decreases |haystack|
  {
    StartsWith(haystack, needle) || (|haystack| > 0 && Contains(haystack[1..], needle))
  }

  /** needle occurs in haystack at offset i. */
  ghost predicate OccursAt(haystack: string, needle: string, i: int) {
    0 <= i && i + |needle| <= |haystack| && haystack[i..i + |needle|] == needle
  }

  /** The scan agrees with the positional definition of an occurrence. */
  lemma {:induction false} ContainsIffOccurs(haystack: string, needle: string)
    ensures Contains(haystack, needle) <==> exists i :: OccursAt(haystack, needle, i)
    decreases |haystack|
  {
    if |haystack| > 0 {
      ContainsIffOccurs(haystack[1..], needle);
    }
    if Contains(haystack, needle) {
      if StartsWith(haystack, needle) {
        assert OccursAt(haystack, needle, 0);
      } else {
        var i :| OccursAt(haystack[1..], needle, i);
        assert haystack[1..][i..i + |needle|] == haystack[i + 1..i + 1 + |needle|];
        assert OccursAt(haystack, needle, i + 1);
      }
    }
    forall i | OccursAt(haystack, needle, i)
      ensures Contains(haystack, needle)
    {
      if i > 0 {
        assert haystack[1..][i - 1..i - 1 + |needle|] == haystack[i..i + |needle|];
        assert OccursAt(haystack[1..], needle, i - 1);
      }
    }
  }

  /** explode($sep, $s): the pieces of s between non-overlapping separators, scanned left to right. */
  function Explode(sep: string, s: string): seq<string>
    requires |sep| > 0
  {
    ExplodeFrom(sep, s, "")
  }

  /** Explode with `piece` already collected for the current element. */
  function ExplodeFrom(sep: string, s: string, piece: string): seq<string>
    requires |sep| > 0
    decreases |s|
  {
    if |s| == 0 then [piece]
    else if StartsWith(s, sep) then [piece] + ExplodeFrom(sep, s[|sep|..], "")
    else ExplodeFrom(sep, s[1..], piece + [s[0]])
  }

  /** implode($sep, $parts). */
  function Implode(sep: string, parts: seq<string>): string {
    if |parts| == 0 then ""
    else if |parts| == 1 then parts[0]
    else parts[0] + sep + Implode(sep, parts[1..])
  }

  lemma {:induction false} ExplodeFromNonEmpty(sep: string, s: string, piece: string)
    requires |sep| > 0
    ensures |ExplodeFrom(sep, s, piece)| >= 1
    decreases |s|
  {
    if |s| > 0 && !StartsWith(s, sep) {
      ExplodeFromNonEmpty(sep, s[1..], piece + [s[0]]);
    }
  }

  /** explode() never returns an empty list, whatever the input string. */
  lemma ExplodeNonEmpty(sep: string, s: string)
    requires |sep| > 0
    ensures |Explode(sep, s)| >= 1
  {
    ExplodeFromNonEmpty(sep, s, "");
  }

  lemma {:induction false} ImplodeExplodeFrom(sep: string, s: string, piece: string)
    requires |sep| > 0
    ensures Implode(sep, ExplodeFrom(sep, s, piece)) == piece + s
    decreases |s|
  {
    if |s| == 0 {
      assert piece + s == piece;
    } else if StartsWith(s, sep) {
      var rest := ExplodeFrom(sep, s[|sep|..], "");
      ExplodeFromNonEmpty(sep, s[|sep|..], "");
      ImplodeExplodeFrom(sep, s[|sep|..], "");
      assert ([piece] + rest)[1..] == rest;
      assert Implode(sep, rest) == s[|sep|..];
      assert s == sep + s[|sep|..];
    } else {
      ImplodeExplodeFrom(sep, s[1..], piece + [s[0]]);
      assert s == [s[0]] + s[1..];
      assert piece + [s[0]] + s[1..] == piece + s;
    }
  }

  /** Joining the pieces with the separator gives the original string back. */
  lemma ImplodeExplode(sep: string, s: string)
    requires |sep| > 0
    ensures Implode(sep, Explode(sep, s)) == s
  {
    ImplodeExplodeFrom(sep, s, "");
  }

  /**
   * While explode scans, no separator starts inside the piece collected so
   * far (reading on into the rest of the input).
   */
  ghost predicate NoSeparatorInPiece(sep: string, piece: string, rest: string) {
    forall i :: 0 <= i < |piece| ==> !StartsWith(piece[i..] + rest, sep)
  }

  lemma NoOccurrenceInPiece(sep: string, piece: string, rest: string)
    requires |sep| > 0 && NoSeparatorInPiece(sep, piece, rest)
    ensures forall i :: !OccursAt(piece, sep, i)
  {
    forall i | 0 <= i && i + |sep| <= |piece|
      ensures !OccursAt(piece, sep, i)
    {
      assert (piece[i..] + rest)[..|sep|] == piece[i..i + |sep|];
    }
  }

  lemma {:induction false} ExplodeFromSplitsAtEverySeparator(sep: string, s: string, piece: string)
    requires |sep| > 0 && NoSeparatorInPiece(sep, piece, s)
    ensures var r := ExplodeFrom(sep, s, piece);
            forall j, i :: 0 <= j < |r| ==> !OccursAt(r[j], sep, i)
    decreases |s|
  {
    var r := ExplodeFrom(sep, s, piece);
    if |s| == 0 {
      NoOccurrenceInPiece(sep, piece, s);
    } else if StartsWith(s, sep) {
      NoOccurrenceInPiece(sep, piece, s);
      ExplodeFromSplitsAtEverySeparator(sep, s[|sep|..], "");
      assert forall j :: 0 < j < |r| ==> r[j] == ExplodeFrom(sep, s[|sep|..], "")[j - 1];
    } else {
      var piece' := piece + [s[0]];
      forall i | 0 <= i < |piece'|
        ensures !StartsWith(piece'[i..] + s[1..], sep)
      {
        if i < |piece| {
          assert piece'[i..] + s[1..] == piece[i..] + s;
        } else {
          assert piece'[i..] + s[1..] == s;
        }
      }
      ExplodeFromSplitsAtEverySeparator(sep, s[1..], piece');
      assert r == ExplodeFrom(sep, s[1..], piece');
    }
  }

  /** explode splits at every separator: no piece it returns contains one. */
  lemma ExplodeSplitsAtEverySeparator(sep: string, s: string)
    requires |sep| > 0
    ensures forall j :: 0 <= j < |Explode(sep, s)| ==> !Contains(Explode(sep, s)[j], sep)
  {
    var r := Explode(sep, s);
    assert r == ExplodeFrom(sep, s, "");
    ExplodeFromSplitsAtEverySeparator(sep, s, "");
    forall j | 0 <= j < |r|
      ensures !Contains(r[j], sep)
    {
      ContainsIffOccurs(r[j], sep);
      assert forall i :: !OccursAt(r[j], sep, i);
    }
  }

  ghost predicate Distinct(ks: seq<string>) {
    forall i, j :: 0 <= i < j < |ks| ==> ks[i] != ks[j]
  }

  /** ks with every occurrence of k removed, order kept. */
  function Without(ks: seq<string>, k: string): (r: seq<string>)
    ensures forall x :: x in r <==> x in ks && x != k
    ensures Distinct(ks) ==> Distinct(r)
  {
    if ks == [] then []
    else
      assert Distinct(ks) ==> Distinct(ks[1..]) && ks[0] !in ks[1..];
      (if ks[0] == k then [] else [ks[0]]) + Without(ks[1..], k)
  }

  /**
   * A PHP array with string keys: the keys in insertion order, and the
   * value stored under each key.
   */
  datatype PhpArray<V> = PhpArray(keys: seq<string>, entries: map<string, V>) {

    ghost predicate Valid() {
      && Distinct(keys)
      && (forall k :: k in entries <==> k in keys)
    }

    /** $a[$k] = $v: a new key goes to the end, an existing key keeps its place. */
    function Set(k: string, v: V): (r: PhpArray<V>)
      requires Valid()
      ensures r.Valid()
      ensures r.entries == entries[k := v]
      ensures r.keys == if k in entries then keys else keys + [k]
    {
      PhpArray(if k in entries then keys else keys + [k], entries[k := v])
    }

    /** unset($a[$k]): the key and its value go; the other keys keep their order. */
    function Unset(k: string): (r: PhpArray<V>)
      requires Valid()
      ensures r.Valid()
      ensures r.entries == entries - {k}
      ensures r.keys == Without(keys, k)
    {
      PhpArray(Without(keys, k), entries - {k})
    }
  }

  function EmptyArray<V>(): (r: PhpArray<V>)
    ensures r.Valid()
  {
    PhpArray([], map[])
  }
}
