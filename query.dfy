/**
 * The query-string encoding the client relies on: `url.QueryEscape` and
 * `url.Values.Encode` from Go's `net/url`. Keys are sorted in byte order
 * (for UTF-8 text that is code point order, so the order of Dafny's `char`),
 * every value of a key becomes one `key=value` piece with both parts escaped,
 * and the pieces are joined with `&`.
 */
module Query {

  /** Characters that query escaping leaves as they are. */
  predicate Unreserved(c: char)
  {
    ('a' <= c <= 'z') || ('A' <= c <= 'Z') || ('0' <= c <= '9') || c == '-' || c == '_' || c == '.' || c == '~'
  }

  /** Characters an escaped text can consist of. */
  predicate Escaped(c: char)
  {
    Unreserved(c) || c == '+' || c == '%'
  }

  const HexDigits: string := "0123456789ABCDEF"

  /** The UTF-8 encoding of a character, as byte values. */
  function Utf8(c: char): (bs: seq<nat>)
    ensures 1 <= |bs| <= 4
    ensures forall i :: 0 <= i < |bs| ==> bs[i] < 256
  {
    var n := c as int;
    if n < 0x80 then [n]
    else if n < 0x800 then [0xC0 + n / 0x40, 0x80 + n % 0x40]
    else if n < 0x10000 then [0xE0 + n / 0x1000, 0x80 + (n / 0x40) % 0x40, 0x80 + n % 0x40]
    else [0xF0 + n / 0x40000, 0x80 + (n / 0x1000) % 0x40, 0x80 + (n / 0x40) % 0x40, 0x80 + n % 0x40]
  }

  /** `%XY` for every byte, with upper-case hexadecimal digits. */
  function Percent(bs: seq<nat>): (r: string)
    requires forall i :: 0 <= i < |bs| ==> bs[i] < 256
    ensures |r| == 3 * |bs|
    ensures forall c :: c in r ==> Escaped(c)
  {
    if bs == [] then ""
    else ['%', HexDigits[bs[0] / 16], HexDigits[bs[0] % 16]] + Percent(bs[1..])
  }

  /** How `url.QueryEscape` writes one character. */
  function EscapeChar(c: char): string
  {
    if Unreserved(c) then [c]
    else if c == ' ' then "+"
    else Percent(Utf8(c))
  }

  /**
   * `url.QueryEscape`: the result consists of escape-safe characters only, so
   * it holds no `&`, `=`, `?` or `#`, and text made of unreserved characters
   * is left unchanged.
   */
  function Escape(s: string): (r: string)
    ensures forall c :: c in r ==> Escaped(c)
    ensures (forall c :: c in s ==> Unreserved(c)) ==> r == s
  {
    if s == [] then ""
    else EscapeChar(s[0]) + Escape(s[1..])
  }

  /** Byte-wise (code point) order on strings, as `sort.Strings` uses. */
  predicate LessEq(a: string, b: string)
    decreases |a|
  {
    |a| == 0 || (|b| > 0 && (a[0] < b[0] || (a[0] == b[0] && LessEq(a[1..], b[1..]))))
  }

  lemma {:induction false} LessEqTotal(a: string, b: string)
    ensures LessEq(a, b) || LessEq(b, a)
    decreases |a|
  {
    if |a| > 0 && |b| > 0 && a[0] == b[0] {
      LessEqTotal(a[1..], b[1..]);
    }
  }

  lemma {:induction false} LessEqAntisymmetric(a: string, b: string)
    requires LessEq(a, b) && LessEq(b, a)
    ensures a == b
    decreases |a|
  {
    if |a| > 0 {
      LessEqAntisymmetric(a[1..], b[1..]);
      assert a == [a[0]] + a[1..] && b == [b[0]] + b[1..];
    }
  }

  lemma {:induction false} LessEqTransitive(a: string, b: string, c: string)
    requires LessEq(a, b) && LessEq(b, c)
    ensures LessEq(a, c)
    decreases |a|
  {
    if |a| > 0 && a[0] == b[0] && b[0] == c[0] {
      LessEqTransitive(a[1..], b[1..], c[1..]);
    }
  }

  /** Every non-empty finite set of strings has a least element. */
  lemma LeastExists(keys: set<string>)
    requires keys != {}
    ensures exists k :: k in keys && forall j :: j in keys ==> LessEq(k, j)
  {
    var m := LeastOf(keys);
  }

  lemma {:induction false} LeastOf(keys: set<string>) returns (m: string)
    requires keys != {}
    ensures m in keys && forall j :: j in keys ==> LessEq(m, j)
    decreases |keys|
  {
    var x :| x in keys;
    LessEqTotal(x, x);
    if keys == {x} {
      m := x;
    } else {
      var y := LeastOf(keys - {x});
      LessEqTotal(x, y);
      if LessEq(x, y) {
        forall j | j in keys ensures LessEq(x, j) {
          if j != x {
            LessEqTransitive(x, y, j);
          }
        }
        m := x;
      } else {
        m := y;
      }
    }
  }

  /** The least of a non-empty set of keys. */
  function LeastKey(keys: set<string>): (k: string)
    requires keys != {}
    ensures k in keys && forall j :: j in keys ==> LessEq(k, j)
  {
    LeastExists(keys);
    var k :| k in keys && forall j :: j in keys ==> LessEq(k, j);
    assert forall k' :: k' in keys && (forall j :: j in keys ==> LessEq(k', j)) ==> k' == k by {
      forall k' | k' in keys && (forall j :: j in keys ==> LessEq(k', j)) ensures k' == k {
        LessEqAntisymmetric(k, k');
      }
    }
    k
  }

  /** Whether the strings are in strictly increasing order. */
  ghost predicate StrictlySorted(ks: seq<string>)
  {
    forall i, j :: 0 <= i < j < |ks| ==> LessEq(ks[i], ks[j]) && ks[i] != ks[j]
  }

  /** The keys of a set in increasing order, each once, as `sort.Strings` leaves them. */
  function SortedKeys(keys: set<string>): (ks: seq<string>)
    decreases |keys|
    ensures |ks| == |keys|
    ensures forall k :: k in ks <==> k in keys
    ensures StrictlySorted(ks)
  {
    if keys == {} then []
    else
      var k := LeastKey(keys);
      var rest := SortedKeys(keys - {k});
      assert forall i :: 0 <= i < |rest| ==> rest[i] in keys - {k};
      SortedCons(k, rest);
      [k] + rest
  }

  /** A key smaller than every key of a strictly sorted list extends it. */
  lemma SortedCons(k: string, rest: seq<string>)
    requires StrictlySorted(rest)
    requires forall i :: 0 <= i < |rest| ==> LessEq(k, rest[i]) && k != rest[i]
    ensures StrictlySorted([k] + rest)
  {
    var ks := [k] + rest;
    forall i, j | 0 <= i < j < |ks| ensures LessEq(ks[i], ks[j]) && ks[i] != ks[j] {
      assert ks[j] == rest[j - 1];
      if i > 0 {
        assert ks[i] == rest[i - 1];
      }
    }
  }

  /** Two distinct keys are listed smaller first. */
  lemma SortedPair(a: string, b: string)
    requires LessEq(a, b) && a != b
    ensures SortedKeys({a, b}) == [a, b]
  {
    var ks := SortedKeys({a, b});
    assert |ks| == 2 && ks[0] in {a, b} && ks[1] in {a, b} && ks[0] != ks[1];
    if ks[0] == b {
      assert LessEq(b, a);
      LessEqAntisymmetric(a, b);
    }
  }

  /** The `key=value` pieces of one key, in the order of its values. */
  function KeyPieces(k: string, vs: seq<string>): (r: seq<string>)
    ensures |r| == |vs|
    ensures forall i :: 0 <= i < |vs| ==> r[i] == Escape(k) + "=" + Escape(vs[i])
  {
    if vs == [] then [] else [Escape(k) + "=" + Escape(vs[0])] + KeyPieces(k, vs[1..])
  }

  /** The pieces of the listed keys, key after key. */
  function Pieces(v: map<string, seq<string>>, ks: seq<string>): seq<string>
    requires forall i :: 0 <= i < |ks| ==> ks[i] in v
  {
    if ks == [] then [] else KeyPieces(ks[0], v[ks[0]]) + Pieces(v, ks[1..])
  }

  /** The pieces joined with `sep` between consecutive ones. */
  function Join(ps: seq<string>, sep: char): string
  {
    if ps == [] then ""
    else if |ps| == 1 then ps[0]
    else ps[0] + [sep] + Join(ps[1..], sep)
  }

  /** `url.Values.Encode`: the pieces of all keys, in key order, joined with `&`. */
  function Encode(v: map<string, seq<string>>): string
  {
    var ks := SortedKeys(v.Keys);
    Join(Pieces(v, ks), '&')
  }

  /** Encoding lists the pieces of the keys in sorted order. */
  lemma EncodeInOrder(v: map<string, seq<string>>, ks: seq<string>)
    requires SortedKeys(v.Keys) == ks
    ensures forall i :: 0 <= i < |ks| ==> ks[i] in v
    ensures Encode(v) == Join(Pieces(v, ks), '&')
  {
  }

  /** Two pieces are joined by one separator. */
  lemma JoinPair(p: string, q: string, sep: char)
    ensures Join([p, q], sep) == p + [sep] + q
  {
    assert [p, q][1..] == [q];
  }

  /** The number of occurrences of `c` in `s`. */
  function Count(c: char, s: string): nat
  {
    if s == [] then 0 else (if s[0] == c then 1 else 0) + Count(c, s[1..])
  }

  lemma {:induction false} CountAppend(c: char, a: string, b: string)
    ensures Count(c, a + b) == Count(c, a) + Count(c, b)
  {
    if a == [] {
      assert a + b == b;
    } else {
      assert (a + b)[0] == a[0];
      assert (a + b)[1..] == a[1..] + b;
      CountAppend(c, a[1..], b);
    }
  }

  lemma {:induction false} CountAbsent(c: char, s: string)
    requires c !in s
    ensures Count(c, s) == 0
  {
    if s != [] {
      CountAbsent(c, s[1..]);
    }
  }

  /** Every character of an encoded query is escape-safe, `=` or `&`. */
  lemma EncodeAlphabet(v: map<string, seq<string>>)
    ensures forall c :: c in Encode(v) ==> Escaped(c) || c == '=' || c == '&'
  {
    var ks := SortedKeys(v.Keys);
    PiecesAlphabet(v, ks);
    JoinAlphabet(Pieces(v, ks), '&');
  }

  lemma {:induction false} PiecesAlphabet(v: map<string, seq<string>>, ks: seq<string>)
    requires forall i :: 0 <= i < |ks| ==> ks[i] in v
    ensures forall p, c :: p in Pieces(v, ks) && c in p ==> Escaped(c) || c == '='
  {
    if ks != [] {
      PiecesAlphabet(v, ks[1..]);
      var kp := KeyPieces(ks[0], v[ks[0]]);
      forall p, c | p in kp && c in p ensures Escaped(c) || c == '=' {
        var i :| 0 <= i < |kp| && kp[i] == p;
      }
    }
  }

  lemma {:induction false} JoinAlphabet(ps: seq<string>, sep: char)
    requires forall p, c :: p in ps && c in p ==> Escaped(c) || c == '='
    ensures forall c :: c in Join(ps, sep) ==> Escaped(c) || c == '=' || c == sep
  {
    if |ps| > 1 {
      JoinAlphabet(ps[1..], sep);
    }
  }

  /** The values `url.Values.Set` leaves for each parameter: a one-element list. */
  function Singletons(ps: map<string, string>): map<string, seq<string>>
  {
    map k | k in ps :: [ps[k]]
  }

  /**
   * Encoding parameters set one value per key gives exactly one piece per
   * parameter, `key=value` escaped, in increasing key order.
   */
  lemma ParameterPieces(ps: map<string, string>)
    ensures var ks := SortedKeys(ps.Keys);
      Pieces(Singletons(ps), ks) == seq(|ks|, i requires 0 <= i < |ks| => Escape(ks[i]) + "=" + Escape(ps[ks[i]]))
  {
    var ks := SortedKeys(ps.Keys);
    SingletonPieces(ps, ks);
  }

  lemma {:induction false} SingletonPieces(ps: map<string, string>, ks: seq<string>)
    requires forall i :: 0 <= i < |ks| ==> ks[i] in ps
    ensures Pieces(Singletons(ps), ks) == seq(|ks|, i requires 0 <= i < |ks| => Escape(ks[i]) + "=" + Escape(ps[ks[i]]))
  {
    if ks != [] {
      SingletonPieces(ps, ks[1..]);
    }
  }
}
