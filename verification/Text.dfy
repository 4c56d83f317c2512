/** Number formatting as `{}` and `{:016x}` print it, and reading a string back piece by piece. */
module Text {
  import opened Wrappers

  // ----- numbers -----

  function Digit(d: nat): char
    requires d < 16
  {
    if d < 10 then '0' + d as char else 'a' + (d - 10) as char
  }

  predicate IsDigit(c: char) {
    '0' <= c <= '9'
  }

  /** Unsigned decimal, no leading zeros. */
  function Decimal(n: nat): string {
    if n < 10 then [Digit(n)] else Decimal(n / 10) + [Digit(n % 10)]
  }

  /** The number that a string of decimal digits denotes. */
  function Value(s: string): nat
    requires forall i :: 0 <= i < |s| ==> IsDigit(s[i])
  {
    if s == "" then 0
    else
      var last := s[|s| - 1];
      assert IsDigit(last);
      Value(s[..|s| - 1]) * 10 + (last as int - '0' as int)
  }

  lemma {:induction false} ValueOfDecimal(n: nat)
    ensures |Decimal(n)| > 0 && forall i :: 0 <= i < |Decimal(n)| ==> IsDigit(Decimal(n)[i])
    ensures Value(Decimal(n)) == n
  {
    if n >= 10 {
      ValueOfDecimal(n / 10);
      var s := Decimal(n);
      assert s[..|s| - 1] == Decimal(n / 10);
    }
  }

  /** How many digits a string starts with. */
  function DigitRun(s: string): (k: nat)
    ensures k <= |s| && forall i :: 0 <= i < k ==> IsDigit(s[i])
    ensures k < |s| ==> !IsDigit(s[k])
  {
    if s == "" || !IsDigit(s[0]) then 0 else 1 + DigitRun(s[1..])
  }

  /** Read a decimal number off the front. */
  function ReadNumber(s: string): Option<(nat, string)> {
    var k := DigitRun(s);
    if k == 0 then None else Some((Value(s[..k]), s[k..]))
  }

  predicate StartsWithDigit(s: string) {
    s != "" && IsDigit(s[0])
  }

  /** A printed number is read back, provided no digit follows it. */
  lemma ReadDecimal(n: nat, rest: string)
    requires !StartsWithDigit(rest)
    ensures ReadNumber(Decimal(n) + rest) == Some((n, rest))
  {
    ValueOfDecimal(n);
    var s := Decimal(n) + rest;
    var k := DigitRun(s);
    assert forall i :: 0 <= i < |Decimal(n)| ==> s[i] == Decimal(n)[i];
    assert rest != "" ==> s[|Decimal(n)|] == rest[0];
    assert s[..k] == Decimal(n) && s[k..] == rest;
  }

  lemma DecimalInjective(a: nat, b: nat, ra: string, rb: string)
    requires Decimal(a) + ra == Decimal(b) + rb && !StartsWithDigit(ra) && !StartsWithDigit(rb)
    ensures a == b && ra == rb
  {
    ReadDecimal(a, ra);
    ReadDecimal(b, rb);
  }

  /** The low `width` hexadecimal digits of `n`, most significant first: `{:0width$x}` for numbers that fit. */
  function Hex(n: nat, width: nat): string {
    if width == 0 then "" else Hex(n / 16, width - 1) + [Digit(n % 16)]
  }

  function Pow16(k: nat): nat {
    if k == 0 then 1 else 16 * Pow16(k - 1)
  }

  lemma {:induction false} HexLength(n: nat, width: nat)
    ensures |Hex(n, width)| == width
  {
    if width > 0 {
      HexLength(n / 16, width - 1);
    }
  }

  /** Fixed-width hexadecimal is injective on the numbers that fit. */
  lemma {:induction false} HexInjective(a: nat, b: nat, width: nat)
    requires a < Pow16(width) && b < Pow16(width) && Hex(a, width) == Hex(b, width)
    ensures a == b
  {
    if width > 0 {
      var (sa, sb) := (Hex(a, width), Hex(b, width));
      HexLength(a / 16, width - 1);
      HexLength(b / 16, width - 1);
      assert sa[..width - 1] == Hex(a / 16, width - 1) && sb[..width - 1] == Hex(b / 16, width - 1);
      assert sa[width - 1] == Digit(a % 16) && sb[width - 1] == Digit(b % 16);
      HexInjective(a / 16, b / 16, width - 1);
    }
  }

  // ----- reading pieces off the front -----

  /** `s` without the prefix `tag`. */
  function Strip(tag: string, s: string): (r: Option<string>)
    ensures r.Some? ==> |r.value| == |s| - |tag|
  {
    if tag <= s then Some(s[|tag|..]) else None
  }

  lemma StripTag(tag: string, rest: string)
    ensures Strip(tag, tag + rest) == Some(rest)
  {
    assert (tag + rest)[|tag|..] == rest;
  }

  /** Neither string is a prefix of the other. */
  ghost predicate Diverge<T>(a: seq<T>, b: seq<T>) {
    exists p :: 0 <= p < |a| && p < |b| && a[p] != b[p]
  }

  /** The names of the listed values form a prefix-free code. */
  ghost predicate PrefixFree<D(!new), T>(all: seq<D>, name: D -> seq<T>) {
    forall a, b :: a in all && b in all && a != b ==> Diverge(name(a), name(b))
  }

  /** The first listed value whose name starts `s`, with what follows the name. */
  function ReadName<D, T(==)>(all: seq<D>, name: D -> seq<T>, s: seq<T>): (r: Option<(D, seq<T>)>)
    ensures r.Some? ==> |r.value.1| <= |s|
  {
    if all == [] then None
    else if name(all[0]) <= s then Some((all[0], s[|name(all[0])|..]))
    else ReadName(all[1..], name, s)
  }

  /** A name from a prefix-free code is read back, whatever follows it. */
  lemma {:induction false} ReadBack<D(!new), T>(all: seq<D>, name: D -> seq<T>, d: D, rest: seq<T>)
    requires d in all && PrefixFree(all, name)
    ensures ReadName(all, name, name(d) + rest) == Some((d, rest))
  {
    var s := name(d) + rest;
    assert s[|name(d)|..] == rest;
    if all[0] != d {
      var p :| 0 <= p < |name(all[0])| && p < |name(d)| && name(all[0])[p] != name(d)[p];
      assert s[p] == name(d)[p];
      assert d in all[1..];
      ReadBack(all[1..], name, d, rest);
    } else {
      assert name(d) <= s;
    }
  }

  /** Two streams that start with names of a prefix-free code start with the same one. */
  lemma NamePeel<D(!new), T>(all: seq<D>, name: D -> seq<T>, a: D, b: D, ra: seq<T>, rb: seq<T>)
    requires a in all && b in all && PrefixFree(all, name) && name(a) + ra == name(b) + rb
    ensures a == b && ra == rb
  {
    ReadBack(all, name, a, ra);
    ReadBack(all, name, b, rb);
  }

  // ----- streams of encoded items -----

  function Concat<A, T>(enc: A -> seq<T>, items: seq<A>): seq<T> {
    if items == [] then [] else enc(items[0]) + Concat(enc, items[1..])
  }

  /** Reading `x` and `y` off the front of one stream gives the same item, as far as `keep` looks, and the same rest. */
  ghost predicate Peels<A, B, T>(enc: A -> seq<T>, keep: A -> B, x: A, y: A, rx: seq<T>, ry: seq<T>) {
    enc(x) + rx == enc(y) + ry ==> keep(x) == keep(y) && rx == ry
  }

  function Map<A, B>(f: A -> B, s: seq<A>): seq<B> {
    seq(|s|, i requires 0 <= i < |s| => f(s[i]))
  }

  /** If single items can be read off the front, whole lists are determined by their streams. */
  lemma {:induction false} ConcatInjective<A(!new), B, T(!new)>(enc: A -> seq<T>, keep: A -> B, a: seq<A>, b: seq<A>)
    requires forall x, y, rx, ry :: Peels(enc, keep, x, y, rx, ry)
    requires forall x :: enc(x) != []
    requires Concat(enc, a) == Concat(enc, b)
    ensures Map(keep, a) == Map(keep, b)
  {
    if a == [] || b == [] {
      assert a == [] && b == [];
    } else {
      var (ra, rb) := (Concat(enc, a[1..]), Concat(enc, b[1..]));
      assert Peels(enc, keep, a[0], b[0], ra, rb);
      ConcatInjective(enc, keep, a[1..], b[1..]);
      assert Map(keep, a) == [keep(a[0])] + Map(keep, a[1..]);
      assert Map(keep, b) == [keep(b[0])] + Map(keep, b[1..]);
    }
  }

  /** What `keep` forgets and the encoding ignores does not show in the stream. */
  lemma {:induction false} ConcatIgnores<A(!new), T>(enc: A -> seq<T>, keep: A -> A, a: seq<A>)
    requires forall x :: enc(keep(x)) == enc(x)
    ensures Concat(enc, Map(keep, a)) == Concat(enc, a)
  {
    if a != [] {
      ConcatIgnores(enc, keep, a[1..]);
      assert Map(keep, a)[1..] == Map(keep, a[1..]);
    }
  }
}
