/**
 * The string and collection helpers of `probcog.util.Util`, and the
 * post-incremented static `int` counter that hands out identifiers.
 */
module Util {
  import opened Wrappers

  // ---------------------------------------------------------------------
  // Java `int` arithmetic

  const INT_MIN: int := -0x8000_0000
  const INT_MAX: int := 0x7fff_ffff

  /** The value a Java `int` holds when the exact result of an operation is `x`. */
  function Wrap32(x: int): (r: int)
    ensures INT_MIN <= r <= INT_MAX
    ensures INT_MIN <= x <= INT_MAX ==> r == x
    ensures (r - x) % 0x1_0000_0000 == 0
  {
    (x - INT_MIN) % 0x1_0000_0000 + INT_MIN
  }

  /** Incrementing a wrapped value wraps the incremented count. */
  lemma Wrap32Succ(n: int)
    ensures Wrap32(Wrap32(n) + 1) == Wrap32(n + 1)
  {
    var q := (n - INT_MIN) / 0x1_0000_0000;
    assert n - INT_MIN == q * 0x1_0000_0000 + (Wrap32(n) - INT_MIN);
    assert n + 1 - INT_MIN == q * 0x1_0000_0000 + (Wrap32(n) + 1 - INT_MIN);
  }

  // ---------------------------------------------------------------------
  // Identifier counters

  /**
   * A static `int` field that is read and post-incremented (`return id++;`).
   * `issued` records every value handed out, oldest first.
   */
  class IdCounter {
    var id: int
    ghost var issued: seq<int>

    ghost predicate Valid()
      reads this
    {
      && id == Wrap32(|issued|)
      && forall k :: 0 <= k < |issued| ==> issued[k] == Wrap32(k)
    }

    /** The field's initialiser, `= 0`. */
    constructor ()
      ensures Valid() && id == 0 && issued == []
    {
      id := 0;
      issued := [];
    }

    /**
     * `nextID()`: returns the current value and increments the field by one.
     * Until the counter passes `INT_MAX` the values are 0, 1, 2, ... and
     * none is handed out twice.
     */
    method NextId() returns (r: int)
      requires Valid()
      modifies this
      ensures Valid()
      ensures r == old(id) && id == Wrap32(old(id) + 1)
      ensures issued == old(issued) + [r]
      ensures |old(issued)| <= INT_MAX ==> r == |old(issued)| && r !in old(issued)
    {
      Wrap32Succ(|issued|);
      r := id;
      id := Wrap32(id + 1);
      issued := issued + [r];
    }
  }

  // ---------------------------------------------------------------------
  // String.split with a one-character separator

  /** Cuts `s` at every occurrence of `sep`, keeping every piece, empty ones too. */
  function Pieces(s: string, sep: char): (parts: seq<string>)
    ensures |parts| >= 1
    decreases |s|
  {
    if s == [] then [[]]
    else
      var rest := Pieces(s[1..], sep);
      if s[0] == sep then [[]] + rest
      else [[s[0]] + rest[0]] + rest[1..]
  }

  /** No piece contains the separator, and every character of a piece comes from the input. */
  lemma {:induction false} PiecesParts(s: string, sep: char)
    ensures forall p :: p in Pieces(s, sep) ==> sep !in p
    ensures forall p, ch :: p in Pieces(s, sep) && ch in p ==> ch in s
    decreases |s|
  {
    if s != [] {
      PiecesParts(s[1..], sep);
      var rest := Pieces(s[1..], sep);
      assert forall ch :: ch in s[1..] ==> ch in s;
      if s[0] != sep {
        assert forall p :: p in rest[1..] ==> p in rest;
        assert rest[0] in rest;
      }
    }
  }

  /** Glues `parts` back together with `sep` between neighbours. */
  function Join(parts: seq<string>, sep: char): string
  {
    if parts == [] then []
    else if |parts| == 1 then parts[0]
    else parts[0] + [sep] + Join(parts[1..], sep)
  }

  /** Joining the pieces restores the string they were cut from. */
  lemma {:induction false} JoinPieces(s: string, sep: char)
    ensures Join(Pieces(s, sep), sep) == s
    decreases |s|
  {
    if s != [] {
      var rest := Pieces(s[1..], sep);
      JoinPieces(s[1..], sep);
      if s[0] == sep {
        assert ([[]] + rest)[1..] == rest;
      } else {
        var parts := [[s[0]] + rest[0]] + rest[1..];
        if |rest| == 1 {
          assert parts == [[s[0]] + rest[0]];
        } else {
          assert parts[1..] == rest[1..];
          assert s == [s[0]] + s[1..];
        }
      }
    }
  }

  /** Removes the empty strings at the end of `parts`. */
  function DropTrailingEmpty(parts: seq<string>): (r: seq<string>)
    ensures r <= parts
    ensures r == [] || r[|r| - 1] != []
    ensures forall k :: |r| <= k < |parts| ==> parts[k] == []
  {
    if parts == [] || parts[|parts| - 1] != [] then parts
    else DropTrailingEmpty(parts[..|parts| - 1])
  }

  /**
   * Java's `s.split(sep)` for a one-character literal separator: the input
   * itself when the separator does not occur, otherwise the pieces without
   * the trailing empty ones.
   */
  function Split(s: string, sep: char): seq<string>
  {
    if sep !in s then [s] else DropTrailingEmpty(Pieces(s, sep))
  }

  /**
   * What `split` returns: the whole string when the separator is absent,
   * otherwise the pieces up to the last non-empty one; no part contains the
   * separator and every character of a part comes from the input.
   */
  lemma SplitParts(s: string, sep: char)
    ensures forall p :: p in Split(s, sep) ==> sep !in p
    ensures forall p, ch :: p in Split(s, sep) && ch in p ==> ch in s
    ensures sep !in s ==> Split(s, sep) == [s]
    ensures sep in s ==> Split(s, sep) <= Pieces(s, sep) &&
                         forall k :: |Split(s, sep)| <= k < |Pieces(s, sep)| ==> Pieces(s, sep)[k] == []
  {
    PiecesParts(s, sep);
  }

  // ---------------------------------------------------------------------
  // key=value lookups

  /** A token that `token.split("=")` reads as a pair whose key is `key`. */
  predicate HasKey(token: string, key: string)
  {
    var kv := Split(token, '=');
    |kv| >= 2 && kv[0] == key
  }

  /** The token with index `i` is the first one with key `key`. */
  predicate FirstWithKey(tokens: seq<string>, key: string, i: int)
  {
    && 0 <= i < |tokens|
    && HasKey(tokens[i], key)
    && forall j :: 0 <= j < i ==> !HasKey(tokens[j], key)
  }

  /** A token without `=` never has a key. */
  lemma NoEqualsNoKey(token: string, key: string)
    requires '=' !in token
    ensures !HasKey(token, key)
  {
  }

  /**
   * `getTokenValue`: in `params` of the form `k=v,k=v`, the second part of
   * the first comma-separated token whose `=`-split has a first part equal
   * to `tokenKey`; `None` (Java `null`) when there is none.
   */
  method GetTokenValue(params: string, tokenKey: string) returns (r: Option<string>)
    ensures r.None? <==> forall t :: t in Split(params, ',') ==> !HasKey(t, tokenKey)
    ensures r.Some? ==> exists i :: FirstWithKey(Split(params, ','), tokenKey, i) &&
                                    r.value == Split(Split(params, ',')[i], '=')[1]
    ensures r.Some? ==> ',' !in r.value && '=' !in r.value
  {
    var tokens := Split(params, ',');
    for i := 0 to |tokens|
      invariant forall j :: 0 <= j < i ==> !HasKey(tokens[j], tokenKey)
    {
      var keyValuePair := Split(tokens[i], '=');
      if |keyValuePair| < 2 {
        continue;
      }
      if keyValuePair[0] == tokenKey {
        assert FirstWithKey(tokens, tokenKey, i);
        assert keyValuePair[1] in keyValuePair;
        SplitParts(params, ',');
        SplitParts(tokens[i], '=');
        assert tokens[i] in tokens;
        return Some(keyValuePair[1]);
      }
    }
    return None;
  }

  /** A pair `getPossibleValues` can read without running off the `=`-split. */
  predicate Readable(pair: string, key: string)
  {
    var kv := Split(pair, '=');
    |kv| >= 1 && (kv[0] == key ==> |kv| >= 2)
  }

  /** `pair` splits at `=` into `key`, `value` and possibly more parts. */
  predicate PairOf(pair: string, key: string, value: string)
  {
    var kv := Split(pair, '=');
    |kv| >= 2 && kv[0] == key && kv[1] == value
  }

  /**
   * The value one pair contributes: its second part when its first part is
   * `key`. A pair contributes at most one value, and never one holding `=`.
   */
  function PairValues(pair: string, key: string): (values: seq<string>)
    ensures |values| <= 1
    ensures forall v :: v in values ==> '=' !in v
  {
    SplitParts(pair, '=');
    var kv := Split(pair, '=');
    if |kv| >= 2 && kv[0] == key then [kv[1]] else []
  }

  /** The concatenation of `f(x)` for each `x` of `xs`, in order. */
  function Collect(xs: seq<string>, f: string -> seq<string>): seq<string>
  {
    if xs == [] then [] else Collect(xs[..|xs| - 1], f) + f(xs[|xs| - 1])
  }

  /** Collecting over a concatenation collects over its parts, in order. */
  lemma {:induction false} CollectAppend(a: seq<string>, b: seq<string>, f: string -> seq<string>)
    ensures Collect(a + b, f) == Collect(a, f) + Collect(b, f)
    decreases |b|
  {
    if b != [] {
      var b' := b[..|b| - 1];
      assert (a + b)[..|a + b| - 1] == a + b';
      assert (a + b)[|a + b| - 1] == b[|b| - 1];
      CollectAppend(a, b', f);
    } else {
      assert a + b == a;
    }
  }

  /** A string is collected exactly when some element contributes it. */
  lemma {:induction false} CollectMembers(xs: seq<string>, f: string -> seq<string>, v: string)
    ensures v in Collect(xs, f) <==> exists i :: 0 <= i < |xs| && v in f(xs[i])
  {
    if xs != [] {
      var n := |xs| - 1;
      var init := xs[..n];
      CollectMembers(init, f, v);
      if v in Collect(init, f) {
        var i :| 0 <= i < |init| && v in f(init[i]);
        assert xs[i] == init[i];
      }
      if i :| 0 <= i < n && v in f(xs[i]) {
        assert init[i] == xs[i];
      }
    }
  }

  /** The values of the pairs whose key is `key`, in the order of `pairs`. */
  function PossibleValues(pairs: seq<string>, key: string): seq<string>
  {
    Collect(pairs, pair => PairValues(pair, key))
  }

  /** The values of a concatenation are the values of its parts, in order. */
  lemma PossibleValuesAppend(a: seq<string>, b: seq<string>, key: string)
    ensures PossibleValues(a + b, key) == PossibleValues(a, key) + PossibleValues(b, key)
  {
    CollectAppend(a, b, pair => PairValues(pair, key));
  }

  /**
   * A value is returned exactly when some pair splits into `key` and that
   * value; no value contains `=`.
   */
  lemma PossibleValuesMembers(pairs: seq<string>, key: string, v: string)
    ensures v in PossibleValues(pairs, key) <==> exists i :: 0 <= i < |pairs| && PairOf(pairs[i], key, v)
    ensures v in PossibleValues(pairs, key) ==> '=' !in v
  {
    var f := pair => PairValues(pair, key);
    CollectMembers(pairs, f, v);
    if v in PossibleValues(pairs, key) {
      var i :| 0 <= i < |pairs| && v in f(pairs[i]);
      assert PairOf(pairs[i], key, v);
    }
    if i :| 0 <= i < |pairs| && PairOf(pairs[i], key, v) {
      assert v in f(pairs[i]);
    }
  }

  /** There are never more values than pairs. */
  lemma {:induction false} PossibleValuesLength(pairs: seq<string>, key: string)
    ensures |PossibleValues(pairs, key)| <= |pairs|
  {
    if pairs != [] {
      PossibleValuesLength(pairs[..|pairs| - 1], key);
    }
  }

  /**
   * `getPossibleValues`: the second `=`-part of every pair whose first part
   * is `key`, in input order. A pair the source cannot index (a first part
   * missing, or a matching pair without a second part) makes it throw, so
   * every pair must be readable.
   */
  method GetPossibleValues(pairs: seq<string>, key: string) returns (values: seq<string>)
    requires forall p :: p in pairs ==> Readable(p, key)
    ensures values == PossibleValues(pairs, key)
  {
    values := [];
    for i := 0 to |pairs|
      invariant values == PossibleValues(pairs[..i], key)
    {
      assert pairs[..i + 1][..i] == pairs[..i];
      assert pairs[i] in pairs;
      var keyValuePair := Split(pairs[i], '=');
      if keyValuePair[0] == key {
        values := values + [keyValuePair[1]];
      }
      assert pairs[..i + 1][i] == pairs[i];
      assert values == PossibleValues(pairs[..i], key) + PairValues(pairs[i], key);
    }
    assert pairs[..|pairs|] == pairs;
  }

  /**
   * `nextValue`: the element after the first occurrence of `value`, the
   * last element wrapping round to the first; `None` when `value` is absent.
   */
  method NextValue(values: seq<string>, value: string) returns (r: Option<string>)
    ensures r.None? <==> value !in values
    ensures r.Some? ==> exists i :: 0 <= i < |values| && values[i] == value && value !in values[..i] &&
                                    r.value == values[(i + 1) % |values|]
    ensures r.Some? ==> r.value in values
  {
    for i := 0 to |values|
      invariant value !in values[..i]
    {
      if values[i] == value {
        assert values[..i + 1] == values[..i] + [value];
        return Some(values[(i + 1) % |values|]);
      }
      assert values[..i + 1] == values[..i] + [values[i]];
    }
    assert values[..|values|] == values;
    return None;
  }

  // ---------------------------------------------------------------------
  // Collection to array

  /**
   * Both `toArray` overloads: reuse `a` when it exists and is long enough,
   * otherwise allocate an array of exactly the collection's size; then
   * copy the collection, in iteration order, into the front of it.
   */
  method ToArray<T(0)>(collection: seq<T>, a: array?<T>) returns (r: array<T>)
    modifies a
    ensures a != null && a.Length >= |collection| ==> r == a
    ensures a == null || a.Length < |collection| ==> fresh(r) && r.Length == |collection|
    ensures |collection| <= r.Length && r[..|collection|] == collection
    ensures a != null && r == a ==> r[|collection|..] == old(a[|collection|..])
    ensures a != null && a.Length < |collection| ==> unchanged(a)
  {
    if a == null || a.Length < |collection| {
      r := new T[|collection|];
    } else {
      r := a;
    }
    var i := 0;
    while i < |collection|
      invariant 0 <= i <= |collection|
      invariant r[..i] == collection[..i]
      invariant a != null && r == a ==> r[|collection|..] == old(a[|collection|..])
      invariant a != null && r != a ==> unchanged(a)
    {
      r[i] := collection[i];
      i := i + 1;
    }
  }
}
