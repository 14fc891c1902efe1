// Values shared by every component: bytes, optional values, decimal numerals.

module Base {
  type Byte = b: int | 0 <= b < 256
  type Bytes = seq<Byte>

  datatype Option<+T> = None | Some(value: T)

  /** A byte slice as the source sees it: possibly nil, otherwise its contents. */
  datatype Slice = Nil | Data(bytes: Bytes)

  function Elements<T>(s: seq<T>): set<T> {
    set x | x in s
  }
}

/** Byte arrays that cross an interface. */
module Buffers {
  import opened Base

  ghost function Contents(p: array?<Byte>): Bytes
    reads p
  {
    if p == null then [] else p[..]
  }

  /** A private copy; nil and empty have the same copy. */
  method Clone(p: array?<Byte>) returns (c: array<Byte>)
    ensures fresh(c) && c[..] == Contents(p)
  {
    if p == null {
      c := new Byte[0];
    } else {
      c := new Byte[p.Length];
      var i := 0;
      while i < p.Length
        invariant 0 <= i <= p.Length
        invariant c[..i] == p[..i]
      {
        c[i] := p[i];
        i := i + 1;
      }
    }
  }

  // ----- arrays that others hold -----

  /** The held arrays contain mem. */
  ghost predicate Holds(held: seq<array<Byte>>, mem: seq<Bytes>)
    reads held
  {
    |mem| == |held| && forall i :: 0 <= i < |held| ==> held[i][..] == mem[i]
  }

  ghost predicate Distinct(held: seq<array<Byte>>) {
    forall i, j :: 0 <= i < j < |held| ==> held[i] != held[j]
  }

  /** One byte written, if there is such a place. */
  function Poked(mem: seq<Bytes>, i: nat, at: nat, b: Byte): seq<Bytes> {
    if i < |mem| && at < |mem[i]| then
      var bytes: Bytes := mem[i][at := b];
      mem[i := bytes]
    else mem
  }

  method Poke(held: seq<array<Byte>>, i: nat, at: nat, b: Byte, ghost mem: seq<Bytes>)
    requires Distinct(held) && Holds(held, mem)
    modifies if i < |held| then {held[i]} else {}
    ensures Holds(held, Poked(mem, i, at, b))
  {
    if i < |held| && at < held[i].Length {
      held[i][at] := b;
    }
  }

  /** One more array is held, unless it is nil. */
  method Hold(held: seq<array<Byte>>, a: array?<Byte>, ghost mem: seq<Bytes>) returns (held': seq<array<Byte>>)
    requires Distinct(held) && Holds(held, mem) && (a != null ==> a !in held)
    ensures held' == if a == null then held else held + [a]
    ensures Distinct(held') && Holds(held', mem + if a == null then [] else [a[..]])
  {
    if a == null {
      return held;
    }
    return held + [a];
  }
}

/** The decimal numerals that stores put into the identifiers and tokens they issue. */
module Decimal {
  function Digit(d: nat): char
    requires d < 10
  {
    (48 + d) as char
  }

  function Itoa(n: nat): (s: string)
    ensures s != ""
  {
    if n < 10 then [Digit(n)] else Itoa(n / 10) + [Digit(n % 10)]
  }

  /** What a numeral denotes. */
  function Value(s: string): int {
    if s == "" then 0 else 10 * Value(s[..|s| - 1]) + (s[|s| - 1] as int - 48)
  }

  lemma {:induction false} ValueOfItoa(n: nat)
    ensures Value(Itoa(n)) == n
  {
    if n < 10 {
      assert Itoa(n)[..0] == "";
    } else {
      ValueOfItoa(n / 10);
      var s := Itoa(n);
      assert s[..|s| - 1] == Itoa(n / 10);
    }
  }

  /** Numerals are digits only, without leading zeros. */
  lemma {:induction false} ItoaShape(n: nat)
    ensures forall i :: 0 <= i < |Itoa(n)| ==> '0' <= Itoa(n)[i] <= '9'
    ensures Itoa(n)[0] == '0' ==> Itoa(n) == "0"
    ensures n > 0 ==> Itoa(n)[0] != '0'
  {
    if n >= 10 {
      ItoaShape(n / 10);
    }
  }

  /** Numerals are never reused: distinct numbers have distinct numerals. */
  lemma ItoaInjective(m: nat, n: nat)
    requires Itoa(m) == Itoa(n)
    ensures m == n
  {
    ValueOfItoa(m);
    ValueOfItoa(n);
  }

  /** The same with a fixed text in front. */
  lemma TaggedInjective(tag: string, m: nat, n: nat)
    requires tag + Itoa(m) == tag + Itoa(n)
    ensures m == n
  {
    assert (tag + Itoa(m))[|tag|..] == Itoa(m);
    assert (tag + Itoa(n))[|tag|..] == Itoa(n);
    ItoaInjective(m, n);
  }
}
