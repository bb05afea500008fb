/** Base64 with the URL and filename safe alphabet (section 5 of RFC 4648), and the padding cut off and put back. */
module Base64Url {
  import opened Bytes
  import opened Options

  type sextet = n: int | 0 <= n < 64

  function Digit(n: sextet): char {
    if n < 26 then ('A' as int + n) as char
    else if n < 52 then ('a' as int + (n - 26)) as char
    else if n < 62 then ('0' as int + (n - 52)) as char
    else if n == 62 then '-' else '_'
  }

  function Value(c: char): Option<sextet> {
    if 'A' <= c <= 'Z' then Some(c as int - 'A' as int)
    else if 'a' <= c <= 'z' then Some(c as int - 'a' as int + 26)
    else if '0' <= c <= '9' then Some(c as int - '0' as int + 52)
    else if c == '-' then Some(62)
    else if c == '_' then Some(63)
    else None
  }

  function Digits(v: seq<sextet>): string {
    if v == [] then "" else [Digit(v[0])] + Digits(v[1..])
  }

  function Values(s: string): Option<seq<sextet>> {
    if s == "" then Some([])
    else
      var rest := Values(s[1..]);
      if Value(s[0]).None? || rest.None? then None else Some([Value(s[0]).value] + rest.value)
  }

  /** Three bytes as four sextets; the bits of a shorter end are filled up with zeros. */
  function Split(b: seq<byte>): seq<sextet> {
    if |b| == 0 then []
    else if |b| == 1 then [b[0] / 4, b[0] % 4 * 16]
    else if |b| == 2 then [b[0] / 4, b[0] % 4 * 16 + b[1] / 16, b[1] % 16 * 4]
    else Four(b[0], b[1], b[2]) + Split(b[3..])
  }

  function Four(x: byte, y: byte, z: byte): seq<sextet> {
    [x / 4, x % 4 * 16 + y / 16, y % 16 * 4 + z / 64, z % 64]
  }

  /** The bytes of the sextets; one sextet alone is no byte. */
  function Join(v: seq<sextet>): Option<seq<byte>> {
    if |v| == 0 then Some([])
    else if |v| == 1 then None
    else if |v| == 2 then Some([First(v[0], v[1])])
    else if |v| == 3 then Some([First(v[0], v[1]), Second(v[1], v[2])])
    else
      var rest := Join(v[4..]);
      if rest.None? then None else Some([First(v[0], v[1]), Second(v[1], v[2]), Third(v[2], v[3])] + rest.value)
  }

  function First(p: sextet, q: sextet): byte {
    p * 4 + q / 16
  }

  function Second(q: sextet, r: sextet): byte {
    q % 16 * 16 + r / 4
  }

  function Third(r: sextet, s: sextet): byte {
    r % 4 * 64 + s
  }

  /** Text with all padding at its end cut off. */
  function Cut(s: string): string {
    if s != "" && s[|s| - 1] == '=' then Cut(s[..|s| - 1]) else s
  }

  function Pads(n: nat): string {
    if n == 0 then "" else Pads(n - 1) + "="
  }

  /** Padding that makes the length a multiple of four. */
  function Refill(s: string): string {
    s + Pads((-|s|) % 4)
  }

  function Encode(b: seq<byte>): string {
    Refill(Digits(Split(b)))
  }

  /** None for text that is no padded encoding. */
  function Decode(s: string): Option<seq<byte>> {
    var body := Cut(s);
    if |s| % 4 != 0 || |s| - |body| > 2 || Values(body).None? then None else Join(Values(body).value)
  }

  // ---- what the encoding is -----------------------------------------------------------

  /** Table 2 of RFC 4648: the digits in their order. */
  lemma DigitMeaning(n: sextet)
    ensures n < 26 ==> Digit(n) == "ABCDEFGHIJKLMNOPQRSTUVWXYZ"[n]
    ensures 26 <= n < 52 ==> Digit(n) == "abcdefghijklmnopqrstuvwxyz"[n - 26]
    ensures 52 <= n < 62 ==> Digit(n) == "0123456789"[n - 52]
    ensures Digit(62) == '-' && Digit(63) == '_'
  {
    if 26 <= n < 52 {
      assert "abcdefghijklmnopqrstuvwxyz"[n - 26] as int == 'a' as int + (n - 26);
    } else if n < 26 {
      assert "ABCDEFGHIJKLMNOPQRSTUVWXYZ"[n] as int == 'A' as int + n;
    }
  }

  /** Three bytes and their four sextets are one number of 24 bits, the first byte the highest. */
  lemma FourMeaning(x: byte, y: byte, z: byte)
    ensures var v := Split([x, y, z]);
      |v| == 4 && 0x4_0000 * (v[0] as int) + 0x1000 * (v[1] as int) + 64 * (v[2] as int) + v[3]
        == 0x1_0000 * (x as int) + 0x100 * (y as int) + z
  {
    assert [x, y, z][3..] == [];
  }

  /** A shorter end is filled up with zero bits. */
  lemma EndMeaning(x: byte, y: byte)
    ensures Split([x]) == Split([x, 0, 0])[..2] && Split([x, y]) == Split([x, y, 0])[..3]
  {
    assert [x, 0, 0][3..] == [] && [x, y, 0][3..] == [];
  }

  // ---- round trips --------------------------------------------------------------------

  lemma {:induction false} ValuesOfDigits(v: seq<sextet>)
    ensures Values(Digits(v)) == Some(v) && |Digits(v)| == |v|
  {
    if v != [] {
      ValuesOfDigits(v[1..]);
      assert Digits(v)[0] == Digit(v[0]) && v == [v[0]] + v[1..];
      assert Digits(v)[1..] == Digits(v[1..]);
    }
  }

  lemma {:induction false} DigitsAlphabet(v: seq<sextet>)
    ensures forall c :: c in Digits(v) ==> Value(c).Some?
  {
    if v != [] {
      DigitsAlphabet(v[1..]);
      assert forall c :: c in Digits(v) ==> c == Digit(v[0]) || c in Digits(v[1..]);
    }
  }

  lemma JoinGroup(x: byte, y: byte, z: byte)
    ensures First(x / 4, x % 4 * 16 + y / 16) == x && First(x / 4, x % 4 * 16) == x
    ensures Second(x % 4 * 16 + y / 16, y % 16 * 4 + z / 64) == y && Second(x % 4 * 16 + y / 16, y % 16 * 4) == y
    ensures Third(y % 16 * 4 + z / 64, z % 64) == z
  {
  }

  lemma JoinEnds(p: sextet, q: sextet, r: sextet)
    ensures Join([p, q]) == Some([First(p, q)]) && Join([p, q, r]) == Some([First(p, q), Second(q, r)])
  {
  }

  lemma JoinMore(p: sextet, q: sextet, r: sextet, s: sextet, v: seq<sextet>, t: seq<byte>)
    requires Join(v) == Some(t)
    ensures Join([p, q, r, s] + v) == Some([First(p, q), Second(q, r), Third(r, s)] + t)
  {
    assert ([p, q, r, s] + v)[4..] == v;
  }

  lemma JoinFour(x: byte, y: byte, z: byte, v: seq<sextet>, t: seq<byte>)
    requires Join(v) == Some(t)
    ensures Join(Four(x, y, z) + v) == Some([x, y, z] + t)
  {
    JoinGroup(x, y, z);
    JoinMore(x / 4, x % 4 * 16 + y / 16, y % 16 * 4 + z / 64, z % 64, v, t);
  }

  lemma {:induction false} JoinSplit(b: seq<byte>)
    ensures Join(Split(b)) == Some(b)
  {
    if |b| >= 3 {
      JoinSplit(b[3..]);
      JoinFour(b[0], b[1], b[2], Split(b[3..]), b[3..]);
      assert b == [b[0], b[1], b[2]] + b[3..];
    } else if |b| == 2 {
      JoinTwo(b[0], b[1]);
      assert b == [b[0], b[1]];
    } else if |b| == 1 {
      JoinOne(b[0]);
      assert b == [b[0]];
    }
  }

  lemma JoinTwo(x: byte, y: byte)
    ensures Join(Split([x, y])) == Some([x, y])
  {
    var p: sextet, q: sextet, r: sextet := x / 4, x % 4 * 16 + y / 16, y % 16 * 4;
    SplitTwo(x, y);
    JoinEnds(p, q, r);
    assert First(p, q) == x && Second(q, r) == y by {
      JoinGroup(x, y, 0);
    }
  }

  lemma SplitTwo(x: byte, y: byte)
    ensures Split([x, y]) == [x / 4, x % 4 * 16 + y / 16, y % 16 * 4]
  {
  }

  lemma JoinOne(x: byte)
    ensures Join(Split([x])) == Some([x])
  {
    JoinGroup(x, 0, 0);
    JoinEnds(x / 4, x % 4 * 16, 0);
  }

  lemma {:induction false} SplitLength(b: seq<byte>) returns (groups: int)
    ensures groups >= 0 && 4 * groups - 2 <= |Split(b)| <= 4 * groups
  {
    groups := if b == [] then 0 else 1;
    if |b| >= 3 {
      var rest := SplitLength(b[3..]);
      groups := rest + 1;
    }
  }

  lemma {:induction false} CutPads(s: string, n: nat)
    requires s == "" || s[|s| - 1] != '='
    ensures Cut(s + Pads(n)) == s && |Pads(n)| == n
  {
    if n > 0 {
      CutPads(s, n - 1);
      CutOne(s + Pads(n - 1));
      assert s + Pads(n) == (s + Pads(n - 1)) + "=";
    } else {
      assert s + Pads(0) == s;
    }
  }

  lemma CutOne(s: string)
    ensures Cut(s + "=") == Cut(s)
  {
    assert (s + "=")[..|s|] == s;
  }

  /**
   What is left of an encoding when its padding is cut off: digits of the alphabet, and enough to count
   the padding back.
   */
  lemma CutAndRefill(b: seq<byte>)
    ensures Cut(Encode(b)) == Digits(Split(b)) && Refill(Cut(Encode(b))) == Encode(b)
    ensures forall c :: c in Cut(Encode(b)) ==> Value(c).Some? && c != '.' && c != '='
  {
    var d := Digits(Split(b));
    DigitsAlphabet(Split(b));
    if d != "" {
      assert d[|d| - 1] in d;
    }
    CutPads(d, (-|d|) % 4);
  }

  lemma Missing(groups: int, n: int)
    requires 4 * groups - 2 <= n <= 4 * groups
    ensures (-n) % 4 == 4 * groups - n && 4 * groups % 4 == 0
  {
    var q := (-n) / 4;
    assert -n == 4 * q + (-n) % 4;
    assert 4 * (q + groups) == 4 * groups - n - (-n) % 4;
    assert q + groups == 0;
  }

  lemma EncodeLength(b: seq<byte>)
    ensures |Encode(b)| % 4 == 0 && |Encode(b)| - |Digits(Split(b))| <= 2
  {
    ValuesOfDigits(Split(b));
    var groups := SplitLength(b);
    var n := |Digits(Split(b))|;
    Missing(groups, n);
    CutPads("", (-n) % 4);
    assert |Encode(b)| == 4 * groups;
  }

  /** Every byte string survives being encoded, cut, refilled and decoded. */
  lemma RoundTrip(b: seq<byte>)
    ensures Decode(Refill(Cut(Encode(b)))) == Some(b)
  {
    CutAndRefill(b);
    EncodeLength(b);
    ValuesOfDigits(Split(b));
    JoinSplit(b);
  }
}
