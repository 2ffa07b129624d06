/**
 * Which symbols of a base64 text a secret in it settles by itself, wherever among the encoded bytes it
 * starts (packages/security/src/redact.ts).
 */
module Base64Cores {
  import opened Common

  newtype byte = x: int | 0 <= x < 256

  /** RFC 4648: section 4, and section 5 for URLs and file names (written without padding). */
  datatype Alphabet = Base64 | Base64url

  // ----- RFC 4648 -----

  function Symbol(n: int, alphabet: Alphabet): char
    requires 0 <= n < 64
  {
    if n < 26 then ('A' as int + n) as char
    else if n < 52 then ('a' as int + n - 26) as char
    else if n < 62 then ('0' as int + n - 52) as char
    else if n == 62 then (if alphabet == Base64 then '+' else '-')
    else if alphabet == Base64 then '/' else '_'
  }

  function Value(c: char, alphabet: Alphabet): Option<int> {
    if 'A' <= c <= 'Z' then Some(c as int - 'A' as int)
    else if 'a' <= c <= 'z' then Some(c as int - 'a' as int + 26)
    else if '0' <= c <= '9' then Some(c as int - '0' as int + 52)
    else if c == (if alphabet == Base64 then '+' else '-') then Some(62)
    else if c == (if alphabet == Base64 then '/' else '_') then Some(63)
    else None
  }

  /** Three bytes as four six-bit numbers. */
  function Sextet(x: int, y: int, z: int, r: nat): (n: int)
    requires 0 <= x < 256 && 0 <= y < 256 && 0 <= z < 256 && r < 4
    ensures 0 <= n < 64
  {
    if r == 0 then x / 4 else if r == 1 then x % 4 * 16 + y / 16 else if r == 2 then y % 16 * 4 + z / 64 else z % 64
  }

  function Group(x: byte, y: byte, z: byte, alphabet: Alphabet): (s: string)
    ensures |s| == 4
  {
    seq(4, r requires 0 <= r < 4 => Symbol(Sextet(x as int, y as int, z as int, r), alphabet))
  }

  /** The encoding without its padding. */
  function Unpadded(d: seq<byte>, alphabet: Alphabet): string {
    if |d| >= 3 then Group(d[0], d[1], d[2], alphabet) + Unpadded(d[3..], alphabet)
    else if |d| == 2 then Group(d[0], d[1], 0, alphabet)[..3]
    else if |d| == 1 then Group(d[0], 0, 0, alphabet)[..2]
    else ""
  }

  function Padding(d: seq<byte>, alphabet: Alphabet): string {
    if alphabet == Base64url || |d| % 3 == 0 then "" else if |d| % 3 == 1 then "==" else "="
  }

  function Encode(d: seq<byte>, alphabet: Alphabet): string {
    Unpadded(d, alphabet) + Padding(d, alphabet)
  }

  function Decoded(x: int, y: int, z: int, w: int): seq<byte>
    requires 0 <= x < 64 && 0 <= y < 64 && 0 <= z < 64 && 0 <= w < 64
  {
    [(x * 4 + y / 16) as byte, (y % 16 * 16 + z / 4) as byte, (z % 4 * 64 + w) as byte]
  }

  /** Examples of section 10 of RFC 4648, and the two symbols in which the alphabets differ. */
  lemma Vectors()
    ensures Encode([0x66], Base64) == "Zg==" && Encode([0x66, 0x6f], Base64) == "Zm8=" && Encode([0x66, 0x6f, 0x6f], Base64) == "Zm9v"
    ensures Encode([0x66, 0x6f, 0x6f, 0x62, 0x61], Base64) == "Zm9vYmE="
    ensures Encode([0xfb, 0xff], Base64) == "+/8=" && Encode([0xfb, 0xff], Base64url) == "-_8"
  {
    assert [0x66, 0x6f, 0x6f, 0x62, 0x61][3..] == [0x62, 0x61 as byte] && [0x66, 0x6f, 0x6f as byte][3..] == [];
  }

  /** With padding, a text is four symbols for every three bytes begun; without, it holds no `=`. */
  lemma PaddedLength(d: seq<byte>)
    ensures |Encode(d, Base64)| == 4 * ((|d| + 2) / 3)
    ensures Encode(d, Base64url) == Unpadded(d, Base64url)
  {
    SymbolAt(d, 0, Base64);
    assert Unpadded(d, Base64url) + "" == Unpadded(d, Base64url);
  }

  /** Unpadded text back to its bytes. */
  function Decode(s: string, alphabet: Alphabet): Option<seq<byte>> {
    if s == "" then Some([])
    else if |s| == 1 then None
    else
      var x, y := Value(s[0], alphabet), Value(s[1], alphabet);
      var z := if |s| > 2 then Value(s[2], alphabet) else Some(0);
      var w := if |s| > 3 then Value(s[3], alphabet) else Some(0);
      if x.None? || y.None? || z.None? || w.None? then None
      else
        var bytes := Decoded(x.value, y.value, z.value, w.value);
        if |s| <= 4 then Some(bytes[..|s| - 1])
        else
          var rest := Decode(s[4..], alphabet);
          if rest.None? then None else Some(bytes + rest.value)
  }

  lemma SymbolValue(n: int, alphabet: Alphabet)
    requires 0 <= n < 64
    ensures Value(Symbol(n, alphabet), alphabet) == Some(n)
    ensures Symbol(n, alphabet) != '='
  {
  }

  lemma GroupDecodes(x: byte, y: byte, z: byte, alphabet: Alphabet)
    ensures var g := Group(x, y, z, alphabet);
            && (forall r :: 0 <= r < 4 ==> Value(g[r], alphabet) == Some(Sextet(x as int, y as int, z as int, r)))
            && Decoded(Value(g[0], alphabet).value, Value(g[1], alphabet).value, Value(g[2], alphabet).value, Value(g[3], alphabet).value) == [x, y, z]
  {
    hide Symbol, Value;
    forall r: nat | r < 4 ensures Value(Group(x, y, z, alphabet)[r], alphabet) == Some(Sextet(x as int, y as int, z as int, r)) {
      SymbolValue(Sextet(x as int, y as int, z as int, r), alphabet);
    }
  }

  lemma ShortDecodes(g: string, x: byte, y: byte, n: nat, alphabet: Alphabet)
    requires g == Group(x, y, 0, alphabet) && (n == 3 || (n == 2 && y == 0))
    ensures Decode(g[..n], alphabet) == Some([x, y][..n - 1])
  {
    hide Symbol, Value, Group;
    GroupDecodes(x, y, 0, alphabet);
    assert Sextet(x as int, y as int, 0, 3) == 0;
    assert n == 2 ==> Sextet(x as int, y as int, 0, 2) == 0;
    assert [x, y, 0][..n - 1] == [x, y][..n - 1];
  }

  lemma LongDecodes(x: byte, y: byte, z: byte, rest: string, alphabet: Alphabet)
    requires Decode(rest, alphabet).Some?
    ensures Decode(Group(x, y, z, alphabet) + rest, alphabet) == Some([x, y, z] + Decode(rest, alphabet).value)
  {
    hide Symbol, Value, Group;
    GroupDecodes(x, y, z, alphabet);
    var s := Group(x, y, z, alphabet) + rest;
    assert s[4..] == rest;
    assert rest == "" ==> [x, y, z] + Decode(rest, alphabet).value == [x, y, z];
  }

  /** Decoding gives the bytes back, so the encoding loses nothing. */
  lemma {:induction false} DecodeEncode(d: seq<byte>, alphabet: Alphabet)
    ensures Decode(Unpadded(d, alphabet), alphabet) == Some(d)
  {
    hide Group, Decode;
    if |d| >= 3 {
      DecodeEncode(d[3..], alphabet);
      LongDecodes(d[0], d[1], d[2], Unpadded(d[3..], alphabet), alphabet);
      assert d == [d[0], d[1], d[2]] + d[3..];
    } else if d != [] {
      var y := if |d| == 2 then d[1] else 0;
      ShortDecodes(Group(d[0], y, 0, alphabet), d[0], y, |d| + 1, alphabet);
      assert d == [d[0], y][..|d|];
    } else {
      NothingDecodes(alphabet);
    }
  }

  lemma NothingDecodes(alphabet: Alphabet)
    ensures Decode("", alphabet) == Some([])
  {
  }

  // ----- the symbol at each position -----

  function At(d: seq<byte>, i: nat): int {
    if i < |d| then d[i] as int else 0
  }

  function UnpaddedLength(n: nat): nat {
    4 * (n / 3) + if n % 3 == 0 then 0 else n % 3 + 1
  }

  function Digit(d: seq<byte>, k: nat): (n: int)
    ensures 0 <= n < 64
  {
    var q := 3 * (k / 4);
    Sextet(At(d, q), At(d, q + 1), At(d, q + 2), k % 4)
  }

  lemma {:induction false} SymbolAt(d: seq<byte>, k: nat, alphabet: Alphabet)
    ensures |Unpadded(d, alphabet)| == UnpaddedLength(|d|)
    ensures k < UnpaddedLength(|d|) ==> Unpadded(d, alphabet)[k] == Symbol(Digit(d, k), alphabet)
    decreases |d|
  {
    if |d| >= 3 {
      SymbolAt(d[3..], if k >= 4 then k - 4 else 0, alphabet);
      if 4 <= k < UnpaddedLength(|d|) {
        DigitLater(d, k);
      }
    }
  }

  lemma DigitLater(d: seq<byte>, k: nat)
    requires |d| >= 3 && k >= 4
    ensures Digit(d, k) == Digit(d[3..], k - 4)
  {
    var q := 3 * (k / 4);
    assert 3 * ((k - 4) / 4) == q - 3 && (k - 4) % 4 == k % 4;
    forall i: nat | i >= 3 ensures At(d, i) == At(d[3..], i - 3) {
    }
  }

  // ----- the cores -----

  /** Symbols before it share bits with a byte before the secret. */
  function Skip(offset: nat): nat
    requires offset < 3
  {
    if offset == 0 then 0 else offset + 1
  }

  /** Symbols from it on share bits with a byte after the secret. */
  function Keep(total: nat): nat {
    4 * (total / 3) + total % 3
  }

  function Zeros(n: nat): seq<byte> {
    seq(n, i => 0)
  }

  function Core(b: seq<byte>, offset: nat, alphabet: Alphabet): string
    requires offset < 3
  {
    Slice(Unpadded(Zeros(offset) + b, alphabet), Skip(offset), Keep(offset + |b|))
  }

  /** The encoding of `bytes` after each number of zero bytes, without padding, cut at both ends. */
  method Base64CoresOf(bytes: seq<byte>, alphabet: Alphabet) returns (cores: seq<string>)
    ensures |cores| == 3 && forall offset :: 0 <= offset < 3 ==> cores[offset] == Core(bytes, offset, alphabet)
  {
    hide Encode, StripEquals, Slice, Unpadded;
    cores := [];
    for offset := 0 to 3
      invariant |cores| == offset && forall o :: 0 <= o < offset ==> cores[o] == Core(bytes, o, alphabet)
    {
      var total := offset + |bytes|;
      var encoded := StripEquals(Encode(Zeros(offset) + bytes, alphabet));
      StrippedEncoding(Zeros(offset) + bytes, alphabet);
      var skip: nat := [0, 2, 3][offset];
      var keep: nat := total / 3 * 4 + [0, 1, 2][total % 3];
      assert skip == Skip(offset) && keep == Keep(total);
      cores := cores + [Slice(encoded, skip, keep)];
    }
  }

  /** Without the `=` at the end. */
  function StripEquals(s: string): string {
    if s != "" && s[|s| - 1] == '=' then StripEquals(s[..|s| - 1]) else s
  }

  lemma StrippedEncoding(d: seq<byte>, alphabet: Alphabet)
    ensures StripEquals(Encode(d, alphabet)) == Unpadded(d, alphabet)
  {
    var u := Unpadded(d, alphabet);
    if u != "" {
      SymbolAt(d, |u| - 1, alphabet);
      SymbolValue(Digit(d, |u| - 1), alphabet);
    }
    StripMore(u, Padding(d, alphabet));
  }

  lemma {:induction false} StripMore(u: string, padding: string)
    requires (forall i :: 0 <= i < |padding| ==> padding[i] == '=') && (u == "" || u[|u| - 1] != '=')
    ensures StripEquals(u + padding) == u
  {
    if padding != "" {
      assert (u + padding)[..|u + padding| - 1] == u + padding[..|padding| - 1];
      StripMore(u, padding[..|padding| - 1]);
    } else {
      assert u + padding == u;
    }
  }

  /** A symbol inside the core is the same with any bytes around the secret. */
  lemma DigitInside(p: seq<byte>, b: seq<byte>, s: seq<byte>, k: nat)
    requires Skip(|p| % 3) <= k < Keep(|p| % 3 + |b|)
    ensures Digit(Zeros(|p| % 3) + b, k) == Digit(p + b + s, k + 4 * (|p| / 3))
  {
    var o, m := |p| % 3, |p| / 3;
    var short, long := Zeros(o) + b, p + b + s;
    var q := 3 * (k / 4);
    assert (k + 4 * m) / 4 == k / 4 + m && (k + 4 * m) % 4 == k % 4;
    forall i: nat | o <= i < o + |b| ensures At(short, i) == At(long, i + 3 * m) {
      assert short[i] == b[i - o] && long[i + 3 * m] == b[i - o];
    }
    InsideBytes(o, |b|, k);
  }

  /** The bytes a symbol inside the core depends on are the secret's. */
  lemma InsideBytes(o: nat, n: nat, k: nat)
    requires o < 3 && Skip(o) <= k < Keep(o + n)
    ensures var q := 3 * (k / 4);
            && (k % 4 == 0 ==> o <= q < o + n)
            && (k % 4 == 1 ==> o <= q && q + 1 < o + n)
            && (k % 4 == 2 ==> o <= q + 1 && q + 2 < o + n)
            && (k % 4 == 3 ==> o <= q + 2 < o + n)
  {
  }

  lemma CoreSymbol(p: seq<byte>, b: seq<byte>, s: seq<byte>, k: nat, alphabet: Alphabet)
    requires Skip(|p| % 3) <= k < Keep(|p| % 3 + |b|)
    ensures k < |Unpadded(Zeros(|p| % 3) + b, alphabet)| && k + 4 * (|p| / 3) < |Unpadded(p + b + s, alphabet)|
    ensures Unpadded(Zeros(|p| % 3) + b, alphabet)[k] == Unpadded(p + b + s, alphabet)[k + 4 * (|p| / 3)]
  {
    hide Digit, Unpadded, Symbol, Keep, Skip;
    CoreShape(b, |p| % 3, alphabet);
    Longer(|p|, |b|, |s|);
    SymbolAt(Zeros(|p| % 3) + b, k, alphabet);
    SymbolAt(p + b + s, k + 4 * (|p| / 3), alphabet);
    DigitInside(p, b, s, k);
  }

  /**
   * The secret is found in any encoding that holds it: for every prefix and suffix, the core for its
   * offset is in the text, at a place the prefix's length gives.
   */
  lemma CoreInEncoding(p: seq<byte>, b: seq<byte>, s: seq<byte>, alphabet: Alphabet)
    ensures var core := Core(b, |p| % 3, alphabet);
            var start := 4 * (|p| / 3) + Skip(|p| % 3);
            core != "" ==> start + |core| <= |Encode(p + b + s, alphabet)| && Encode(p + b + s, alphabet)[start..start + |core|] == core
  {
    hide Unpadded, Keep, Padding, Core;
    var o, m := |p| % 3, |p| / 3;
    var core := Core(b, o, alphabet);
    CoreShape(b, o, alphabet);
    if core != "" {
      var text := Unpadded(p + b + s, alphabet);
      var start := 4 * m + Skip(o);
      forall i | 0 <= i < |core| ensures start + i < |text| && core[i] == text[start + i] {
        CoreSymbol(p, b, s, Skip(o) + i, alphabet);
      }
      CoreSymbol(p, b, s, Skip(o) + |core| - 1, alphabet);
      Found(text, Padding(p + b + s, alphabet), start, core);
    }
  }

  lemma Found(text: string, more: string, start: nat, core: string)
    requires start + |core| <= |text| && forall i {:trigger core[i]} :: 0 <= i < |core| ==> core[i] == text[start + i]
    ensures (text + more)[start..start + |core|] == core
  {
    var found := (text + more)[start..start + |core|];
    forall i | 0 <= i < |core| ensures found[i] == core[i] {
    }
  }

  lemma Longer(p: nat, b: nat, s: nat)
    ensures 4 * (p / 3) + Keep(p % 3 + b) <= UnpaddedLength(p + b + s)
  {
    var t := p % 3 + b;
    assert p + b + s == 3 * (p / 3) + t + s;
    assert (p + b + s) / 3 == p / 3 + (t + s) / 3 && (p + b + s) % 3 == (t + s) % 3;
  }

  /** How long a core is. */
  lemma CoreShape(b: seq<byte>, offset: nat, alphabet: Alphabet)
    requires offset < 3
    ensures Keep(offset + |b|) <= UnpaddedLength(offset + |b|)
    ensures |Unpadded(Zeros(offset) + b, alphabet)| == UnpaddedLength(offset + |b|)
    ensures Core(b, offset, alphabet)
         == if Skip(offset) < Keep(offset + |b|) then Unpadded(Zeros(offset) + b, alphabet)[Skip(offset)..Keep(offset + |b|)] else ""
  {
    SymbolAt(Zeros(offset) + b, 0, alphabet);
  }

  /** A secret of eight bytes or more has cores of ten symbols or more. */
  lemma CoresAreLong(b: seq<byte>, offset: nat, alphabet: Alphabet)
    requires offset < 3 && |b| >= 8
    ensures |Core(b, offset, alphabet)| >= 10
  {
    CoreShape(b, offset, alphabet);
  }

  // ----- nothing more could be kept -----

  /** The symbol is the same whatever surrounds the secret. */
  ghost predicate Fixed(b: seq<byte>, offset: nat, k: nat, alphabet: Alphabet) {
    forall p: seq<byte>, s: seq<byte>, p': seq<byte>, s': seq<byte> ::
      |p| == offset && |p'| == offset && SymbolOf(p, b, s, k, alphabet).Some? && SymbolOf(p', b, s', k, alphabet).Some? ==>
        SymbolOf(p, b, s, k, alphabet) == SymbolOf(p', b, s', k, alphabet)
  }

  function SymbolOf(p: seq<byte>, b: seq<byte>, s: seq<byte>, k: nat, alphabet: Alphabet): Option<char> {
    var text := Unpadded(p + b + s, alphabet);
    if k < |text| then Some(text[k]) else None
  }

  function All(n: nat, x: byte): seq<byte> {
    seq(n, i => x)
  }

  lemma SymbolsDiffer(x: int, y: int, alphabet: Alphabet)
    requires 0 <= x < 64 && 0 <= y < 64 && x != y
    ensures Symbol(x, alphabet) != Symbol(y, alphabet)
  {
    SymbolValue(x, alphabet);
    SymbolValue(y, alphabet);
  }

  /** A symbol before the core changes with the bytes before the secret. */
  lemma BeforeVaries(b: seq<byte>, offset: nat, s: seq<byte>, k: nat)
    requires offset < 3 && k < Skip(offset)
    ensures Digit(All(offset, 0) + b + s, k) != Digit(All(offset, 255) + b + s, k)
  {
    var d, d' := All(offset, 0) + b + s, All(offset, 255) + b + s;
    assert forall i: nat :: i < offset ==> At(d, i) == 0 && At(d', i) == 255;
    assert forall i: nat :: i >= offset ==> At(d, i) == At(d', i);
    assert k / 4 == 0;
  }

  /** A symbol after the core changes with the bytes after the secret. */
  lemma AfterVaries(p: seq<byte>, b: seq<byte>, n: nat, k: nat)
    requires Keep(|p| + |b|) <= k && 3 * (k / 4) + 3 <= |p| + |b| + n
    ensures Digit(p + b + All(n, 0), k) != Digit(p + b + All(n, 255), k)
  {
    var d, d' := p + b + All(n, 0), p + b + All(n, 255);
    var t := |p| + |b|;
    assert forall i: nat :: i < t ==> At(d, i) == At(d', i);
    assert forall i: nat :: t <= i < t + n ==> At(d, i) == 0 && At(d', i) == 255;
    var q := 3 * (k / 4);
    assert q >= t || q + 1 == t || q + 2 == t || (q + 3 > t);
  }

  /** The tables drop exactly the symbols that share bits with a neighbouring byte. */
  lemma CoreIsAllThatIsFixed(b: seq<byte>, offset: nat, k: nat, alphabet: Alphabet)
    requires offset < 3
    ensures Fixed(b, offset, k, alphabet) <==> Skip(offset) <= k < Keep(offset + |b|)
  {
    hide Digit, Unpadded, Symbol;
    if Skip(offset) <= k < Keep(offset + |b|) {
      forall p: seq<byte>, s: seq<byte> | |p| == offset && SymbolOf(p, b, s, k, alphabet).Some?
        ensures SymbolOf(p, b, s, k, alphabet) == Some(Symbol(Digit(Zeros(offset) + b, k), alphabet))
      {
        SymbolAt(p + b + s, k, alphabet);
        DigitInside(p, b, s, k);
      }
    } else {
      var n := k + 3;
      var early := k < Skip(offset);
      var p, p' := All(offset, 0), All(offset, if early then 255 else 0);
      var s, s' := All(n, 0), All(n, if early then 0 else 255);
      SymbolAt(p + b + s, k, alphabet);
      SymbolAt(p' + b + s', k, alphabet);
      if early {
        BeforeVaries(b, offset, s, k);
      } else {
        AfterVaries(p, b, n, k);
      }
      SymbolsDiffer(Digit(p + b + s, k), Digit(p' + b + s', k), alphabet);
      assert SymbolOf(p, b, s, k, alphabet) != SymbolOf(p', b, s', k, alphabet);
    }
  }
}
