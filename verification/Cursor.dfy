// Relay cursors (transport/graphql/cursor.go): opaque payloads in unpadded URL-safe base64
// (section 5 of RFC 4648, padding omitted as section 3.2 allows) behind a version prefix.

module Base64Url {
  import opened Base

  type Sextet = x: int | 0 <= x < 64

  /** The URL-safe alphabet: A-Z, a-z, 0-9, '-', '_'. */
  function Symbol(x: Sextet): Byte {
    if x < 26 then 65 + x
    else if x < 52 then 97 + (x - 26)
    else if x < 62 then 48 + (x - 52)
    else if x == 62 then 45
    else 95
  }

  /** Table 2 of RFC 4648: capitals, small letters and digits in order, then the two URL-safe symbols. */
  lemma SymbolsAreTheAlphabet(x: Sextet)
    ensures Symbol(0) == 'A' as int && Symbol(25) == 'Z' as int && Symbol(26) == 'a' as int && Symbol(51) == 'z' as int
    ensures Symbol(52) == '0' as int && Symbol(61) == '9' as int && Symbol(62) == '-' as int && Symbol(63) == '_' as int
    ensures x < 61 && x != 25 && x != 51 ==> Symbol(x + 1) == Symbol(x) + 1
  {
  }

  function FromSymbol(b: Byte): Option<Sextet> {
    if 65 <= b <= 90 then Some(b - 65)
    else if 97 <= b <= 122 then Some(b - 97 + 26)
    else if 48 <= b <= 57 then Some(b - 48 + 52)
    else if b == 45 then Some(62)
    else if b == 95 then Some(63)
    else None
  }

  /** Three bytes become four symbols; one or two left over become two or three, without padding. */
  function Encode(bytes: Bytes): Bytes {
    if bytes == [] then []
    else if |bytes| == 1 then [Symbol(bytes[0] / 4), Symbol(bytes[0] % 4 * 16)]
    else if |bytes| == 2 then
      [Symbol(bytes[0] / 4), Symbol(bytes[0] % 4 * 16 + bytes[1] / 16), Symbol(bytes[1] % 16 * 4)]
    else
      [Symbol(bytes[0] / 4), Symbol(bytes[0] % 4 * 16 + bytes[1] / 16),
       Symbol(bytes[1] % 16 * 4 + bytes[2] / 64), Symbol(bytes[2] % 64)]
      + Encode(bytes[3..])
  }

  function Sextets(text: Bytes): Option<seq<Sextet>> {
    if text == [] then Some([])
    else
      match (FromSymbol(text[0]), Sextets(text[1..]))
      case (Some(x), Some(rest)) => Some([x] + rest)
      case _ => None
  }

  /** Four sextets hold three bytes; two or three hold one or two, and a single one holds none. Spare bits are ignored. */
  function Unpack(xs: seq<Sextet>): Option<Bytes> {
    if xs == [] then Some([])
    else if |xs| == 1 then None
    else
      var first: Byte := (xs[0] as int) * 4 + xs[1] / 16;
      if |xs| == 2 then Some([first])
      else
        var second: Byte := (xs[1] as int) % 16 * 16 + xs[2] / 4;
        if |xs| == 3 then Some([first, second])
        else
          var third: Byte := (xs[2] as int) % 4 * 64 + xs[3];
          match Unpack(xs[4..])
          case None => None
          case Some(rest) => Some([first, second, third] + rest)
  }

  function Decode(text: Bytes): Option<Bytes> {
    match Sextets(text)
    case None => None
    case Some(xs) => Unpack(xs)
  }

  lemma SymbolRoundTrip(x: Sextet)
    ensures FromSymbol(Symbol(x)) == Some(x)
  {
  }

  /** The sextets an encoding is made of. */
  function Pack(bytes: Bytes): seq<Sextet> {
    if bytes == [] then []
    else if |bytes| == 1 then [bytes[0] / 4, bytes[0] % 4 * 16]
    else if |bytes| == 2 then [bytes[0] / 4, bytes[0] % 4 * 16 + bytes[1] / 16, bytes[1] % 16 * 4]
    else
      [bytes[0] / 4, bytes[0] % 4 * 16 + bytes[1] / 16, bytes[1] % 16 * 4 + bytes[2] / 64, bytes[2] % 64]
      + Pack(bytes[3..])
  }

  function Symbols(xs: seq<Sextet>): Bytes {
    seq(|xs|, i requires 0 <= i < |xs| => Symbol(xs[i]))
  }

  lemma {:induction false} EncodeIsPack(bytes: Bytes)
    ensures Encode(bytes) == Symbols(Pack(bytes))
    decreases |bytes|
  {
    if |bytes| >= 3 {
      EncodeIsPack(bytes[3..]);
    }
  }

  lemma {:induction false} SextetsOfSymbols(xs: seq<Sextet>)
    ensures Sextets(Symbols(xs)) == Some(xs)
    decreases |xs|
  {
    if xs != [] {
      SymbolRoundTrip(xs[0]);
      SextetsOfSymbols(xs[1..]);
      assert Symbols(xs)[1..] == Symbols(xs[1..]);
      assert xs == [xs[0]] + xs[1..];
    }
  }

  /** Splitting two neighbouring bytes over a sextet and joining them again. */
  lemma Halves(a: Byte, b: Byte)
    ensures a / 4 * 4 + (a % 4 * 16 + b / 16) / 16 == a
    ensures (a % 4 * 16 + b / 16) % 16 == b / 16
    ensures b / 16 * 16 + b % 16 == b
  {
    var q, r := a % 4, b / 16;
    assert 0 <= r < 16;
    assert (q * 16 + r) / 16 == q && (q * 16 + r) % 16 == r;
  }

  lemma Quarters(b: Byte, c: Byte)
    ensures (b % 16 * 4 + c / 64) / 4 == b % 16
    ensures (b % 16 * 4 + c / 64) % 4 * 64 + c % 64 == c
  {
    var q, r := b % 16, c / 64;
    assert 0 <= r < 4;
    assert (q * 4 + r) / 4 == q && (q * 4 + r) % 4 == r;
  }

  lemma {:induction false} UnpackOne(xs: seq<Sextet>, a: Byte)
    requires |xs| == 2 && xs[0] == a / 4 && xs[1] == a % 4 * 16
    ensures Unpack(xs) == Some([a])
  {
    Halves(a, 0);
  }

  lemma {:induction false} UnpackTwo(xs: seq<Sextet>, a: Byte, b: Byte)
    requires |xs| == 3 && xs[0] == a / 4 && xs[1] == a % 4 * 16 + b / 16 && xs[2] == b % 16 * 4
    ensures Unpack(xs) == Some([a, b])
  {
    Halves(a, b);
    Quarters(b, 0);
  }

  /** The first four sextets give back the first three bytes. */
  lemma {:induction false} UnpackHead(xs: seq<Sextet>, a: Byte, b: Byte, c: Byte)
    requires |xs| >= 4
    requires xs[0] == a / 4 && xs[1] == a % 4 * 16 + b / 16 && xs[2] == b % 16 * 4 + c / 64 && xs[3] == c % 64
    ensures Unpack(xs) == match Unpack(xs[4..]) { case None => None case Some(rest) => Some([a, b, c] + rest) }
  {
    Halves(a, b);
    Quarters(b, c);
  }

  lemma {:induction false} UnpackPack(bytes: Bytes)
    ensures Unpack(Pack(bytes)) == Some(bytes)
    decreases |bytes|
  {
    if |bytes| == 1 {
      UnpackOne(Pack(bytes), bytes[0]);
      assert bytes == [bytes[0]];
    } else if |bytes| == 2 {
      UnpackTwo(Pack(bytes), bytes[0], bytes[1]);
      assert bytes == [bytes[0], bytes[1]];
    } else if |bytes| >= 3 {
      UnpackPack(bytes[3..]);
      assert Pack(bytes)[4..] == Pack(bytes[3..]);
      UnpackHead(Pack(bytes), bytes[0], bytes[1], bytes[2]);
      assert bytes == [bytes[0], bytes[1], bytes[2]] + bytes[3..];
    }
  }

  lemma {:induction false} SextetsExist(text: Bytes)
    ensures Sextets(text).None? <==> exists b :: b in text && !IsUrlSafe(b)
    ensures Sextets(text).Some? ==> |Sextets(text).value| == |text|
    decreases |text|
  {
    if text != [] {
      SextetsExist(text[1..]);
      assert FromSymbol(text[0]).None? <==> !IsUrlSafe(text[0]);
      assert forall b :: b in text <==> b == text[0] || b in text[1..];
    }
  }

  lemma {:induction false} UnpacksExactlyWhenWhole(xs: seq<Sextet>)
    ensures Unpack(xs).None? <==> |xs| % 4 == 1
    decreases |xs|
  {
    if |xs| >= 4 {
      UnpacksExactlyWhenWhole(xs[4..]);
    }
  }

  /** A text is refused exactly if it has a symbol outside the alphabet, padding included, or a length no encoding has. */
  lemma RefusedExactlyWhenMalformed(text: Bytes)
    ensures Decode(text).None? <==> (exists b :: b in text && !IsUrlSafe(b)) || |text| % 4 == 1
  {
    SextetsExist(text);
    if Sextets(text).Some? {
      UnpacksExactlyWhenWhole(Sextets(text).value);
    }
  }

  /** The sextet with its spare bits cleared, when it is the last of n. */
  function Cleared(x: Sextet, n: nat): Sextet {
    if n % 4 == 2 then x / 16 * 16 else if n % 4 == 3 then x / 4 * 4 else x
  }

  lemma PackHead(a: Sextet, b: Sextet, c: Sextet, d: Sextet)
    ensures var x, y, z := (a as int) * 4 + b / 16, (b as int) % 16 * 16 + c / 4, (c as int) % 4 * 64 + d;
            && 0 <= x < 256 && 0 <= y < 256 && 0 <= z < 256
            && x / 4 == a && x % 4 * 16 == b / 16 * 16 && x % 4 * 16 + y / 16 == b
            && y % 16 * 4 == c / 4 * 4 && y % 16 * 4 + z / 64 == c && z % 64 == d
  {
  }

  lemma {:induction false} PackFour(xs: seq<Sextet>)
    requires |xs| >= 4 && Unpack(xs).Some?
    ensures Unpack(xs[4..]).Some? && Pack(Unpack(xs).value) == xs[..4] + Pack(Unpack(xs[4..]).value)
  {
    PackHead(xs[0], xs[1], xs[2], xs[3]);
    var bytes, rest := Unpack(xs).value, Unpack(xs[4..]).value;
    assert bytes[3..] == rest;
    assert Pack(bytes) == [xs[0], xs[1], xs[2], xs[3]] + Pack(rest);
  }

  lemma {:induction false} PackShort(xs: seq<Sextet>)
    requires |xs| == 2 || |xs| == 3
    ensures Unpack(xs).Some?
    ensures Pack(Unpack(xs).value) == if |xs| == 2 then [xs[0], xs[1] / 16 * 16] else [xs[0], xs[1], xs[2] / 4 * 4]
  {
    PackHead(xs[0], xs[1], if |xs| == 2 then 0 else xs[2], 0);
  }

  function Canonical(xs: seq<Sextet>): seq<Sextet> {
    if xs == [] then [] else xs[..|xs| - 1] + [Cleared(xs[|xs| - 1], |xs|)]
  }

  lemma CanonicalTail(xs: seq<Sextet>)
    requires |xs| >= 4
    ensures Canonical(xs) == xs[..4] + Canonical(xs[4..])
  {
    if |xs| == 4 {
      assert xs[..3] + [xs[3]] == xs[..4];
    } else {
      assert xs[..|xs| - 1] == xs[..4] + xs[4..][..|xs| - 5];
      assert xs[4..][|xs| - 5] == xs[|xs| - 1];
    }
  }

  /** Packing undoes unpacking but for the spare bits of the last sextet. */
  lemma {:induction false} PackUnpack(xs: seq<Sextet>)
    requires Unpack(xs).Some?
    ensures Pack(Unpack(xs).value) == Canonical(xs)
    decreases |xs|
  {
    if |xs| == 2 || |xs| == 3 {
      PackShort(xs);
    } else if |xs| >= 4 {
      PackFour(xs);
      PackUnpack(xs[4..]);
      CanonicalTail(xs);
    }
  }

  lemma {:induction false} SymbolOfSextet(text: Bytes, i: nat)
    requires Sextets(text).Some? && i < |text|
    ensures |Sextets(text).value| == |text| && Symbol(Sextets(text).value[i]) == text[i]
    decreases |text|
  {
    SextetsExist(text);
    if i > 0 {
      SymbolOfSextet(text[1..], i - 1);
    }
  }

  /** An accepted text is the encoding of what it decodes to, but for spare bits in its last symbol, which are ignored. */
  lemma DecodedIsCanonical(text: Bytes)
    requires Decode(text).Some?
    ensures var canonical := Encode(Decode(text).value);
            && |canonical| == |text|
            && (forall i :: 0 <= i < |text| - 1 ==> canonical[i] == text[i])
            && (text != [] && |text| % 4 == 0 ==> canonical == text)
            && (text != [] ==>
                  && FromSymbol(text[|text| - 1]).Some?
                  && canonical[|text| - 1] == Symbol(Cleared(FromSymbol(text[|text| - 1]).value, |text|)))
  {
    var xs := Sextets(text).value;
    var bytes := Unpack(xs).value;
    EncodeIsPack(bytes);
    PackUnpack(xs);
    SextetsExist(text);
    forall i | 0 <= i < |text|
      ensures Symbol(xs[i]) == text[i] && FromSymbol(text[i]) == Some(xs[i])
    {
      SymbolOfSextet(text, i);
      SymbolRoundTrip(xs[i]);
    }
  }

  /** Decoding undoes encoding, for every byte string. */
  lemma {:induction false} RoundTrip(bytes: Bytes)
    ensures Decode(Encode(bytes)) == Some(bytes)
  {
    EncodeIsPack(bytes);
    SextetsOfSymbols(Pack(bytes));
    UnpackPack(bytes);
  }

  /** Test vectors of section 10 of RFC 4648, without padding, and the two symbols of the URL-safe alphabet. */
  lemma KnownVectors()
    ensures Encode([]) == []
    ensures Encode([0x66]) == [0x5A, 0x67]
    ensures Encode([0x66, 0x6F]) == [0x5A, 0x6D, 0x38]
    ensures Encode([0x66, 0x6F, 0x6F]) == [0x5A, 0x6D, 0x39, 0x76]
    ensures Encode([0x66, 0x6F, 0x6F, 0x62]) == [0x5A, 0x6D, 0x39, 0x76, 0x59, 0x67]
    ensures Encode([0xFB, 0xFF]) == [0x2D, 0x5F, 0x38]
  {
    var foo: Bytes := [0x66, 0x6F, 0x6F];
    assert foo[3..] == [];
    var foob: Bytes := [0x66, 0x6F, 0x6F, 0x62];
    assert foob[3..] == [0x62];
  }

  predicate IsUrlSafe(b: Byte) {
    65 <= b <= 90 || 97 <= b <= 122 || 48 <= b <= 57 || b == 45 || b == 95
  }

  /** An encoding uses URL-safe symbols only and is as long as n bytes need without padding. */
  lemma {:induction false} EncodingShape(bytes: Bytes)
    ensures forall b :: b in Encode(bytes) ==> IsUrlSafe(b)
    ensures |Encode(bytes)| == (8 * |bytes| + 5) / 6
    decreases |bytes|
  {
    if |bytes| >= 3 {
      EncodingShape(bytes[3..]);
    }
  }
}

module Cursor {
  import opened Base
  import Base64Url

  /** "v1:" */
  const PREFIX: Bytes := [118, 49, 58]

  datatype Error = InvalidCursor | UnsupportedDirection

  function EncodeCursor(payload: Bytes): Bytes {
    PREFIX + Base64Url.Encode(payload)
  }

  function DecodeCursor(cursor: Bytes): Option<Bytes> {
    if !(PREFIX <= cursor) then None else Base64Url.Decode(cursor[|PREFIX|..])
  }

  /** Decoding a cursor gives back its payload, for every byte string; so no two payloads share a cursor. */
  lemma CursorRoundTrip(payload: Bytes)
    ensures DecodeCursor(EncodeCursor(payload)) == Some(payload)
    ensures EncodeCursor(payload)[..3] == ['v' as int, '1' as int, ':' as int]
  {
    assert EncodeCursor(payload)[|PREFIX|..] == Base64Url.Encode(payload);
    Base64Url.RoundTrip(payload);
  }

  /** A cursor is refused exactly if it lacks the version prefix or what follows is not an encoding. */
  lemma CursorRefused(cursor: Bytes)
    ensures DecodeCursor(cursor).None?
            <==> !(|cursor| >= 3 && cursor[..3] == ['v' as int, '1' as int, ':' as int]) || Base64Url.Decode(cursor[3..]).None?
  {
  }

  datatype ConnectionArgs = ConnectionArgs(first: Option<int>, after: Option<Bytes>, last: Option<int>, before: Option<Bytes>)

  datatype PageRequest = PageRequest(token: Bytes, size: int)

  datatype Requested = Request(page: PageRequest) | BadRequest(error: Error)

  method ToPageRequest(args: ConnectionArgs) returns (r: Requested)
    ensures args.last.Some? || args.before.Some? ==> r == BadRequest(UnsupportedDirection)
    ensures args.last.None? && args.before.None? ==>
              if args.after.Some? && DecodeCursor(args.after.value) == None then r == BadRequest(InvalidCursor)
              else
                && r.Request?
                && r.page.size == (if args.first.Some? then args.first.value else 0)
                && (args.after.None? ==> r.page.token == [])
                && (args.after.Some? ==> Some(r.page.token) == DecodeCursor(args.after.value))
  {
    if args.last.Some? || args.before.Some? {
      return BadRequest(UnsupportedDirection);
    }
    var c := PageRequest([], 0);
    if args.first.Some? {
      c := c.(size := args.first.value);
    }
    if args.after.Some? {
      var payload := DecodeCursor(args.after.value);
      if payload.None? {
        return BadRequest(InvalidCursor);
      }
      c := c.(token := payload.value);
    }
    return Request(c);
  }

  datatype Page<+T> = Page(items: seq<T>, total: int, nextCursor: Bytes)

  datatype Edge<+T> = Edge(node: T, cursor: Bytes)

  datatype PageInfo = PageInfo(hasNextPage: bool, hasPreviousPage: bool, startCursor: Bytes, endCursor: Bytes)

  datatype Connection<+T> = Connection(edges: seq<Edge<T>>, info: PageInfo)

  method BuildConnection<T>(page: Page<T>, cursorOf: T -> Bytes) returns (c: Connection<T>)
    ensures |c.edges| == |page.items|
    ensures forall i :: 0 <= i < |page.items| ==> c.edges[i] == Edge(page.items[i], EncodeCursor(cursorOf(page.items[i])))
    ensures c.info.hasNextPage <==> page.nextCursor != []
    ensures !c.info.hasPreviousPage
    ensures c.info.startCursor == if c.edges == [] then [] else c.edges[0].cursor
    ensures c.info.endCursor == if page.nextCursor != [] then EncodeCursor(page.nextCursor)
                                else if c.edges == [] then [] else c.edges[|c.edges| - 1].cursor
  {
    var edges: seq<Edge<T>> := [];
    var i := 0;
    while i < |page.items|
      invariant 0 <= i <= |page.items| && |edges| == i
      invariant forall j :: 0 <= j < i ==> edges[j] == Edge(page.items[j], EncodeCursor(cursorOf(page.items[j])))
    {
      edges := edges + [Edge(page.items[i], EncodeCursor(cursorOf(page.items[i])))];
      i := i + 1;
    }
    var info := PageInfo(page.nextCursor != [], false, [], []);
    if |edges| > 0 {
      info := info.(startCursor := edges[0].cursor, endCursor := edges[|edges| - 1].cursor);
    }
    if info.hasNextPage && page.nextCursor != [] {
      info := info.(endCursor := EncodeCursor(page.nextCursor));
    }
    return Connection(edges, info);
  }

  /**
   * The token comes back round: asking for the page after a connection's end cursor asks the store
   * for exactly the token it gave, when there is a next page, and for what follows the last item
   * otherwise; asking after any edge asks for what follows that edge's item. Only the empty
   * connection without a next page has an end cursor that is not accepted.
   */
  method AfterTheEnd<T>(page: Page<T>, cursorOf: T -> Bytes, first: Option<int>) returns (r: Requested)
    ensures page.nextCursor != [] ==> r.Request? && r.page.token == page.nextCursor
    ensures page.nextCursor == [] && page.items != [] ==>
              r.Request? && r.page.token == cursorOf(page.items[|page.items| - 1])
    ensures r == BadRequest(InvalidCursor) <==> page.nextCursor == [] && page.items == []
    ensures r.Request? ==> r.page.size == if first.Some? then first.value else 0
  {
    var c := BuildConnection(page, cursorOf);
    r := ToPageRequest(ConnectionArgs(first, Some(c.info.endCursor), None, None));
    if page.nextCursor != [] {
      CursorRoundTrip(page.nextCursor);
    } else if page.items != [] {
      CursorRoundTrip(cursorOf(page.items[|page.items| - 1]));
    }
  }

  method AfterEdge<T>(page: Page<T>, cursorOf: T -> Bytes, i: nat) returns (r: Requested)
    requires i < |page.items|
    ensures r == Request(PageRequest(cursorOf(page.items[i]), 0))
  {
    var c := BuildConnection(page, cursorOf);
    CursorRoundTrip(cursorOf(page.items[i]));
    r := ToPageRequest(ConnectionArgs(None, Some(c.edges[i].cursor), None, None));
  }
}
